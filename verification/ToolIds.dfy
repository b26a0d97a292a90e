/** Owned tool-call ids and the identities providers know the same calls by. */
module ToolIds {
  import opened Common

  datatype Wire = AnthropicMessages | OpenAiResponses | OpenAiChat | GoogleGenerateContent

  datatype Target = Target(provider: string, wire: Wire)

  datatype WireId = WireId(
    provider: string,
    wire: Wire,
    scope: string,
    part: string,
    id: Option<string>,
    item: Option<string>,
    signature: Option<string>)

  datatype Correlation = ById(id: string) | ByPart(part: string)
  datatype Key = Key(provider: string, wire: Wire, scope: string, correlation: Correlation)

  const PREFIX := "call_ls_"

  predicate Owned(id: string) {
    PREFIX <= id
  }

  function KeyOf(b: WireId): Key {
    Key(b.provider, b.wire, b.scope, if b.id.Some? then ById(b.id.value) else ByPart(b.part))
  }

  predicate Complete(b: WireId) {
    b.provider != "" && b.part != "" && b.scope != ""
  }

  type Internal = map<string, seq<WireId>>
  type ByWire = map<Key, string>

  // ---------------------------------------------------------------- the inverse pair

  ghost predicate HasKey(bs: seq<WireId>, k: Key) {
    exists i :: 0 <= i < |bs| && KeyOf(bs[i]) == k
  }

  /** Every binding's key leads back to its owner, and every key has a binding with its owner. */
  ghost predicate Consistent(internal: Internal, wire: ByWire) {
    && (forall id, b :: id in internal && b in internal[id] ==> KeyOf(b) in wire && wire[KeyOf(b)] == id)
    && (forall k :: k in wire ==> wire[k] in internal && HasKey(internal[wire[k]], k))
    && (forall id :: id in internal ==> Owned(id))
  }

  // Nothing already mapped changes: lists only grow at the end, and only those of `id`.
  ghost predicate Grown(internal: Internal, wire: ByWire, id: string, internal': Internal, wire': ByWire) {
    && (forall x :: x in internal ==> x in internal' && internal[x] <= internal'[x])
    && (forall x :: x in internal' && x != id ==> x in internal && internal'[x] == internal[x])
    && (forall k :: k in wire ==> k in wire' && wire'[k] == wire[k])
  }

  // Two bindings name the same thing on the wire: by id where there is one, and else by part.
  predicate SameOnWire(a: WireId, b: WireId) {
    && a.provider == b.provider && a.wire == b.wire && a.scope == b.scope
    && match (a.id, b.id)
       case (Some(x), Some(y)) => x == y
       case (None, None) => a.part == b.part
       case _ => false
  }

  lemma {:induction false} KeyExactly(a: WireId, b: WireId)
    ensures KeyOf(a) == KeyOf(b) <==> SameOnWire(a, b)
  {
  }

  // Another call has a binding that names the same thing.
  ghost predicate Taken(internal: Internal, id: string, b: WireId) {
    exists other, j ::
      other in internal && other != id && 0 <= j < |internal[other]| && SameOnWire(internal[other][j], b)
  }

  /** An owned id, at least one binding, each complete and no other call's. */
  ghost predicate Insertable(internal: Internal, id: string, bs: seq<WireId>) {
    && "call_ls_" <= id && |bs| > 0
    && forall i :: 0 <= i < |bs| ==>
         |bs[i].provider| > 0 && |bs[i].part| > 0 && |bs[i].scope| > 0 && !Taken(internal, id, bs[i])
  }

  lemma {:induction false} FreeExactly(internal: Internal, wire: ByWire, id: string, b: WireId)
    requires Consistent(internal, wire)
    ensures Free(wire, KeyOf(b), id) <==> !Taken(internal, id, b)
  {
    if Taken(internal, id, b) {
      var other, j :|
        other in internal && other != id && 0 <= j < |internal[other]| && SameOnWire(internal[other][j], b);
      KeyExactly(internal[other][j], b);
      assert internal[other][j] in internal[other];
    }
    if !Free(wire, KeyOf(b), id) {
      var other := wire[KeyOf(b)];
      var j :| 0 <= j < |internal[other]| && KeyOf(internal[other][j]) == KeyOf(b);
      KeyExactly(internal[other][j], b);
    }
  }

  lemma {:induction false} AdmissibleExactly(internal: Internal, wire: ByWire, id: string, bs: seq<WireId>)
    requires Consistent(internal, wire)
    ensures Admissible(wire, id, bs) <==> Insertable(internal, id, bs)
  {
    forall i | 0 <= i < |bs| ensures Free(wire, KeyOf(bs[i]), id) <==> !Taken(internal, id, bs[i]) {
      FreeExactly(internal, wire, id, bs[i]);
    }
  }

  // A key may be claimed by `id` unless another call has it.
  predicate Free(wire: ByWire, k: Key, id: string) {
    k in wire ==> wire[k] == id
  }

  predicate Admissible(wire: ByWire, id: string, bs: seq<WireId>) {
    Owned(id) && bs != [] && forall i :: 0 <= i < |bs| ==> Complete(bs[i]) && Free(wire, KeyOf(bs[i]), id)
  }

  function Added(bs: seq<WireId>, b: WireId): seq<WireId> {
    if b in bs then bs else bs + [b]
  }

  lemma {:induction false} AddKeeps(internal: Internal, wire: ByWire, id: string, b: WireId)
    requires Consistent(internal, wire) && id in internal && Free(wire, KeyOf(b), id)
    ensures Consistent(internal[id := Added(internal[id], b)], wire[KeyOf(b) := id])
  {
    var bs := Added(internal[id], b);
    var internal', wire' := internal[id := bs], wire[KeyOf(b) := id];
    assert b in bs;
    forall k | k in wire' ensures wire'[k] in internal' && HasKey(internal'[wire'[k]], k) {
      if k == KeyOf(b) {
        var i :| 0 <= i < |bs| && bs[i] == b;
      } else {
        var bs0 := internal[wire[k]];
        var i :| 0 <= i < |bs0| && KeyOf(bs0[i]) == k;
        assert internal'[wire'[k]][i] == bs0[i];
      }
    }
  }

  // What inserting a list of bindings leaves on either side.
  function AllAdded(entries: seq<WireId>, bs: seq<WireId>): seq<WireId> {
    if bs == [] then entries else Added(AllAdded(entries, bs[..|bs| - 1]), bs[|bs| - 1])
  }

  function AllMapped(wire: ByWire, id: string, bs: seq<WireId>): ByWire {
    if bs == [] then wire else AllMapped(wire, id, bs[..|bs| - 1])[KeyOf(bs[|bs| - 1]) := id]
  }

  function Entries(internal: Internal, id: string): seq<WireId> {
    if id in internal then internal[id] else []
  }

  // An owner with an empty list is as good as none, until its first binding.
  lemma {:induction false} OpenKeeps(internal: Internal, wire: ByWire, id: string)
    requires Consistent(internal, wire) && Owned(id)
    ensures Consistent(internal[id := Entries(internal, id)], wire)
  {
  }

  lemma {:induction false} MappedFree(wire: ByWire, id: string, bs: seq<WireId>, k: Key)
    requires Free(wire, k, id)
    ensures Free(AllMapped(wire, id, bs), k, id)
    decreases |bs|
  {
    if bs != [] {
      MappedFree(wire, id, bs[..|bs| - 1], k);
    }
  }

  lemma {:induction false} InsertConsistent(internal: Internal, wire: ByWire, id: string, bs: seq<WireId>)
    requires Consistent(internal, wire) && Owned(id)
    requires forall i :: 0 <= i < |bs| ==> Free(wire, KeyOf(bs[i]), id)
    ensures Consistent(internal[id := AllAdded(Entries(internal, id), bs)], AllMapped(wire, id, bs))
    decreases |bs|
  {
    if bs == [] {
      OpenKeeps(internal, wire, id);
    } else {
      var n := |bs| - 1;
      InsertConsistent(internal, wire, id, bs[..n]);
      MappedFree(wire, id, bs[..n], KeyOf(bs[n]));
      var entries := AllAdded(Entries(internal, id), bs[..n]);
      AddKeeps(internal[id := entries], AllMapped(wire, id, bs[..n]), id, bs[n]);
      assert internal[id := entries][id := Added(entries, bs[n])] == internal[id := Added(entries, bs[n])];
    }
  }

  lemma {:induction false} AddedGrows(entries: seq<WireId>, bs: seq<WireId>)
    ensures entries <= AllAdded(entries, bs)
    ensures forall i :: 0 <= i < |bs| ==> bs[i] in AllAdded(entries, bs)
    decreases |bs|
  {
    if bs != [] {
      var n := |bs| - 1;
      AddedGrows(entries, bs[..n]);
      var before := AllAdded(entries, bs[..n]);
      forall i | 0 <= i < |bs| ensures bs[i] in AllAdded(entries, bs) {
        if i < n {
          assert bs[..n][i] == bs[i];
          assert bs[i] in before;
        }
      }
    }
  }

  lemma {:induction false} MappedGrows(wire: ByWire, id: string, bs: seq<WireId>)
    requires forall i :: 0 <= i < |bs| ==> Free(wire, KeyOf(bs[i]), id)
    ensures forall k :: k in wire ==> k in AllMapped(wire, id, bs) && AllMapped(wire, id, bs)[k] == wire[k]
    ensures forall i :: 0 <= i < |bs| ==>
              KeyOf(bs[i]) in AllMapped(wire, id, bs) && AllMapped(wire, id, bs)[KeyOf(bs[i])] == id
    decreases |bs|
  {
    if bs != [] {
      var n := |bs| - 1;
      MappedGrows(wire, id, bs[..n]);
      assert Free(wire, KeyOf(bs[n]), id);
      forall i | 0 <= i < |bs|
        ensures KeyOf(bs[i]) in AllMapped(wire, id, bs) && AllMapped(wire, id, bs)[KeyOf(bs[i])] == id
      {
        if i < n {
          assert bs[..n][i] == bs[i];
        }
      }
    }
  }

  lemma {:induction false} MappedKeys(wire: ByWire, id: string, bs: seq<WireId>, k: Key)
    requires k in AllMapped(wire, id, bs)
    ensures k in wire || HasKey(bs, k)
    decreases |bs|
  {
    if bs != [] && k != KeyOf(bs[|bs| - 1]) {
      var n := |bs| - 1;
      MappedKeys(wire, id, bs[..n], k);
      if HasKey(bs[..n], k) {
        var i :| 0 <= i < n && KeyOf(bs[..n][i]) == k;
        assert KeyOf(bs[i]) == k;
      }
    }
  }

  predicate Holds(entries: seq<WireId>, wire: ByWire, id: string, b: WireId) {
    b in entries && KeyOf(b) in wire && wire[KeyOf(b)] == id
  }

  lemma {:induction false} InsertGrows(internal: Internal, wire: ByWire, id: string, bs: seq<WireId>)
    requires forall i :: 0 <= i < |bs| ==> Free(wire, KeyOf(bs[i]), id)
    ensures Grown(internal, wire, id, internal[id := AllAdded(Entries(internal, id), bs)], AllMapped(wire, id, bs))
    ensures forall i :: 0 <= i < |bs| ==> Holds(AllAdded(Entries(internal, id), bs), AllMapped(wire, id, bs), id, bs[i])
  {
    AddedGrows(Entries(internal, id), bs);
    MappedGrows(wire, id, bs);
  }

  // ---------------------------------------------------------------- the identity for a target

  function First(bs: seq<WireId>, t: Target): Option<WireId> {
    if bs == [] then None
    else if bs[0].provider == t.provider && bs[0].wire == t.wire then Some(bs[0])
    else First(bs[1..], t)
  }

  function Replayed(id: string, t: Target): WireId {
    WireId(t.provider, t.wire, "replay:" + id, id, Some(id), None, None)
  }

  lemma {:induction false} FirstIn(bs: seq<WireId>, t: Target)
    ensures First(bs, t).Some? ==> First(bs, t).value in bs
    ensures First(bs, t).None? ==> forall b :: b in bs ==> b.provider != t.provider || b.wire != t.wire
    decreases |bs|
  {
    if bs != [] {
      FirstIn(bs[1..], t);
      assert bs == [bs[0]] + bs[1..];
    }
  }

  /** Bindings added later never change what a target was given. */
  lemma {:induction false} FirstStable(bs: seq<WireId>, more: seq<WireId>, t: Target)
    ensures First(bs + more, t) == if First(bs, t).Some? then First(bs, t) else First(more, t)
    decreases |bs|
  {
    if bs == [] {
      assert bs + more == more;
    } else {
      assert (bs + more)[1..] == bs[1..] + more;
      FirstStable(bs[1..], more, t);
    }
  }

  // A list of bindings answers for a target as the list itself does.
  lemma {:induction false} FirstAdded(bs: seq<WireId>, t: Target)
    ensures First(AllAdded([], bs), t) == First(bs, t)
    decreases |bs|
  {
    if bs != [] {
      var front, last := bs[..|bs| - 1], bs[|bs| - 1];
      FirstAdded(front, t);
      FirstStable(front, [last], t);
      FirstStable(AllAdded([], front), [last], t);
      FirstIn(AllAdded([], front), t);
      assert bs == front + [last];
    }
  }

  /** Distinct calls never share a wire identity. */
  lemma {:induction false} DistinctCalls(internal: Internal, wire: ByWire, a: string, b: string, t: Target)
    requires Consistent(internal, wire) && a in internal && b in internal && a != b
    requires First(internal[a], t).Some? && First(internal[b], t).Some?
    ensures KeyOf(First(internal[a], t).value) != KeyOf(First(internal[b], t).value)
  {
    FirstIn(internal[a], t);
    FirstIn(internal[b], t);
  }

  // ---------------------------------------------------------------- the object

  class ToolCallMap {
    var internal: Internal
    var wire: ByWire

    ghost predicate Valid()
      reads this
    {
      Consistent(internal, wire)
    }

    constructor ()
      ensures Valid() && internal == map[] && wire == map[]
    {
      internal, wire := map[], map[];
    }

    method Check(id: string, bs: seq<WireId>) returns (ok: bool)
      ensures ok <==> Admissible(wire, id, bs)
    {
      if !Owned(id) || bs == [] {
        return false;
      }
      for i := 0 to |bs|
        invariant forall j :: 0 <= j < i ==> Complete(bs[j]) && Free(wire, KeyOf(bs[j]), id)
      {
        if !Complete(bs[i]) || !Free(wire, KeyOf(bs[i]), id) {
          return false;
        }
      }
      return true;
    }

    method Add(id: string, bs: seq<WireId>)
      modifies this
      ensures internal == old(internal)[id := AllAdded(Entries(old(internal), id), bs)]
      ensures wire == AllMapped(old(wire), id, bs)
    {
      internal := internal[id := Entries(internal, id)];
      for i := 0 to |bs|
        invariant internal == old(internal)[id := AllAdded(Entries(old(internal), id), bs[..i])]
        invariant wire == AllMapped(old(wire), id, bs[..i])
      {
        assert bs[..i + 1][..i] == bs[..i];
        wire := wire[KeyOf(bs[i]) := id];
        internal := internal[id := Added(internal[id], bs[i])];
      }
      assert bs[..|bs|] == bs;
    }

    /** All or nothing: a mapping that is malformed or claims another call's identity changes neither side. */
    method Insert(id: string, bs: seq<WireId>) returns (ok: bool)
      requires Valid()
      modifies this
      ensures Valid() && (ok <==> Admissible(old(wire), id, bs)) && (ok <==> Insertable(old(internal), id, bs))
      ensures !ok ==> internal == old(internal) && wire == old(wire)
      ensures ok ==> Grown(old(internal), old(wire), id, internal, wire)
      ensures ok ==> internal == old(internal)[id := AllAdded(Entries(old(internal), id), bs)]
      ensures ok ==> wire == AllMapped(old(wire), id, bs)
      ensures ok ==> forall i :: 0 <= i < |bs| ==> Holds(internal[id], wire, id, bs[i])
    {
      AdmissibleExactly(internal, wire, id, bs);
      ok := Check(id, bs);
      if ok {
        InsertConsistent(internal, wire, id, bs);
        InsertGrows(internal, wire, id, bs);
        Add(id, bs);
      }
    }

    /** The call a wire identity already belongs to, or a newly minted one. */
    method Register(b: WireId, minted: string) returns (r: Result<string, ()>)
      requires Valid() && Owned(minted) && minted !in internal
      modifies this
      ensures Valid() && (r.Ok? <==> KeyOf(b) in old(wire) || Complete(b))
      ensures r.Ok? ==> KeyOf(b) in wire && wire[KeyOf(b)] == r.value && r.value in internal
      ensures KeyOf(b) in old(wire) || r.Err? ==> internal == old(internal) && wire == old(wire)
      ensures KeyOf(b) !in old(wire) && r.Ok? ==>
                r.value == minted && internal == old(internal)[minted := [b]] && wire == old(wire)[KeyOf(b) := minted]
    {
      if KeyOf(b) in wire {
        return Ok(wire[KeyOf(b)]);
      }
      var ok := Insert(minted, [b]);
      if !ok {
        return Err(());
      }
      assert [b][..0] == [] && AllAdded([], [b]) == [b] && Holds(internal[minted], wire, minted, [b][0]);
      return Ok(minted);
    }

    /** The identity a call has for a target, made up once if it has none. */
    method ForTarget(id: string, t: Target) returns (r: Result<WireId, ()>)
      requires Valid()
      modifies this
      ensures Valid()
      ensures r.Ok? <==>
                && id in old(internal)
                && (First(old(internal)[id], t).Some? || Admissible(old(wire), id, [Replayed(id, t)]))
      ensures r.Err? || First(old(internal)[id], t).Some? ==> internal == old(internal) && wire == old(wire)
      ensures r.Ok? ==>
                && id in internal && First(internal[id], t) == Some(r.value) && KeyOf(r.value) in wire
                && wire[KeyOf(r.value)] == id
      ensures r.Ok? ==> Grown(old(internal), old(wire), id, internal, wire)
      ensures forall k :: k in wire ==> k in old(wire) || k == KeyOf(Replayed(id, t))
      ensures r.Ok? && First(old(internal)[id], t).None? ==>
                && r.value == Replayed(id, t)
                && r.value == WireId(t.provider, t.wire, "replay:" + id, id, Some(id), None, None)
    {
      if id !in internal {
        return Err(());
      }
      FirstIn(internal[id], t);
      var found := First(internal[id], t);
      if found.Some? {
        return Ok(found.value);
      }
      var b := Replayed(id, t);
      var ok := Insert(id, [b]);
      if !ok {
        return Err(());
      }
      FirstStable(old(internal)[id], [b], t);
      assert [b][..0] == [] && Holds(internal[id], wire, id, [b][0]);
      return Ok(b);
    }
  }
}
