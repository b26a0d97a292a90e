/**
 Rewriting a sound tool history for a target: calls and answers get their wire identities, and Gemini its own order.
 */
module ToolReplay {
  import opened Common
  import opened ToolIds
  import opened ToolHistory

  // What a call is known by from now on. The wire sees the wire id, or the internal id where there is none.
  datatype Identity = Identity(wire: WireId, name: string, internal: string, order: nat)

  datatype Ready =
    | ReadyCall(identity: Identity)
    | ReadyAnswer(identity: Identity)
    | Kept(item: Item)

  function Shown(identity: Identity): string {
    if identity.wire.id.Some? then identity.wire.id.value else identity.internal
  }

  // ---------------------------------------------------------------- which call an answer is for

  // The call at `i` is the latest of its id before `k`.
  ghost predicate Latest(h: seq<Item>, i: nat, k: nat)
    requires k <= |h|
  {
    i < k && h[i].Call? && forall j :: i < j < k ==> !IsCall(h[j], h[i].call.id)
  }

  // Sound but for where its turns fall.
  ghost predicate Paired(h: seq<Item>) {
    forall j {:trigger SoundAt(h, j)} :: 0 <= j < |h| && !h[j].Turn? ==> SoundAt(h, j)
  }

  /** Even where ids repeat across turns, the call that awaits an answer is the latest of its id. */
  lemma {:induction false} AwaitingIsLatest(h: seq<Item>, i: nat, k: nat, id: string)
    requires i < k <= |h| && Awaits(h, i, k, id) && Paired(h)
    ensures Latest(h, i, k)
  {
    forall j | i < j < k ensures !IsCall(h[j], id) {
      assert h[j].Turn? || SoundAt(h, j);
      assert !Awaits(h, i, j, id) ==> AnsweredBy(h, i, j);
      assert AnsweredBy(h, i, j) ==> AnsweredBy(h, i, k);
    }
  }

  ghost predicate CallReady(h: seq<Item>, out: seq<Ready>, t: Target, i: nat)
    requires i < |h| && i < |out|
  {
    h[i].Call? ==>
      && out[i].ReadyCall?
      && out[i].identity.order == Calls(h[..i]) && out[i].identity.name == h[i].call.name
      && out[i].identity.wire.provider == t.provider && out[i].identity.wire.wire == t.wire
      && (h[i].call.mapping.Bindings? ==> Persisted(h[i].call, out[i].identity, t))
  }

  // A call that came with its mapping keeps its id, and the identity its mapping has for the target.
  predicate Persisted(c: ToolCall, identity: Identity, t: Target)
    requires c.mapping.Bindings?
  {
    && identity.internal == c.id
    && (First(c.mapping.bindings, t).Some? ==> identity.wire == First(c.mapping.bindings, t).value)
  }

  ghost predicate AnswerReady(h: seq<Item>, out: seq<Ready>, k: nat)
    requires k < |h| && k < |out|
  {
    h[k].Answer? && h[k].id.Some? ==>
      && out[k].ReadyAnswer?
      && (h[k].name.Some? ==> h[k].name.value == out[k].identity.name)
      && forall i :: 0 <= i < k && Awaits(h, i, k, h[k].id.value) ==>
           out[i].ReadyCall? && out[k].identity == out[i].identity
  }

  /** Each answer has the identity, and so the wire id and the order, of exactly the pending call it answers. */
  ghost predicate Identified(h: seq<Item>, out: seq<Ready>, t: Target) {
    && |out| == |h|
    && (forall i :: 0 <= i < |h| ==> CallReady(h, out, t, i))
    && (forall k :: 0 <= k < |h| ==> AnswerReady(h, out, k))
    && (forall i :: 0 <= i < |h| && !h[i].Call? && !h[i].Answer? ==> out[i] == Kept(h[i]))
  }

  // ---------------------------------------------------------------- one call

  function Decimal(n: nat): (s: string)
    ensures s != ""
  {
    (if n < 10 then "" else Decimal(n / 10)) + ["0123456789"[n % 10]]
  }

  function Binding(t: Target, scope: string, part: nat, id: string): WireId {
    WireId(t.provider, t.wire, scope, Decimal(part),
           if t.wire == GoogleGenerateContent || id == "" then None else Some(id), None, None)
  }

  // The id a call goes out under: its mapping's for the target, else its own, and a minted one where Gemini gets none.
  function ShownAs(c: ToolCall, t: Target, minted: string): string {
    if c.mapping.Bindings? then
      var b := First(c.mapping.bindings, t);
      if b.Some? && b.value.id.Some? then b.value.id.value else c.id
    else if t.wire == GoogleGenerateContent || c.id == "" then minted
    else c.id
  }

  // What a call is known by: its mapping's first identity for the target, or one made up from its own id; without a
  // mapping a minted id and the id it came with, which Gemini does not get.
  predicate Wears(c: ToolCall, t: Target, minted: string, identity: Identity) {
    match c.mapping
    case Bindings(bs) =>
      && identity.internal == c.id
      && (if First(bs, t).Some? then identity.wire == First(bs, t).value
          else identity.wire == WireId(t.provider, t.wire, "replay:" + c.id, c.id, Some(c.id), None, None))
    case Absent =>
      && identity.internal == minted && identity.wire.item == None && identity.wire.signature == None
      && identity.wire.id == if t.wire.GoogleGenerateContent? || |c.id| == 0 then None else Some(c.id)
    case Unreadable => false
  }

  // The wire identities a mapped call claims: those of its mapping, and one made up if none is for the target.
  ghost predicate Maps(c: ToolCall, t: Target, k: Key) {
    && c.mapping.Bindings?
    && (HasKey(c.mapping.bindings, k) || (First(c.mapping.bindings, t).None? && k == KeyOf(Replayed(c.id, t))))
  }

  // The wire identities one call claims.
  ghost predicate Claims(c: ToolCall, t: Target, scope: string, part: nat, k: Key) {
    if c.mapping.Absent? then k == KeyOf(Binding(t, scope, part, c.id)) else Maps(c, t, k)
  }

  // A mapped call gets its identity when its mapping can be added, and the one made up for it too.
  predicate Mappable(c: ToolCall, t: Target, wire: ByWire)
    requires c.mapping.Bindings?
  {
    && Admissible(wire, c.id, c.mapping.bindings)
    && (First(c.mapping.bindings, t).None? ==> t.provider != "" && Free(wire, KeyOf(Replayed(c.id, t)), c.id))
  }

  // Nothing claimed is given up.
  ghost predicate Keeps(wire: ByWire, grown: ByWire) {
    forall k :: k in wire ==> k in grown && grown[k] == wire[k]
  }

  ghost predicate Owns(c: ToolCall, t: Target, wire: ByWire) {
    forall k :: Maps(c, t, k) ==> k in wire && wire[k] == c.id
  }

  lemma {:induction false} MappedFreeIff(wire: ByWire, id: string, bs: seq<WireId>, k: Key)
    requires forall i :: 0 <= i < |bs| ==> Free(wire, KeyOf(bs[i]), id)
    ensures Free(AllMapped(wire, id, bs), k, id) <==> Free(wire, k, id)
  {
    MappedGrows(wire, id, bs);
    if Free(wire, k, id) {
      MappedFree(wire, id, bs, k);
    }
  }

  lemma {:induction false} ReplayedAdmissible(wire: ByWire, c: ToolCall, t: Target)
    requires c.mapping.Bindings? && Admissible(wire, c.id, c.mapping.bindings)
    ensures Admissible(AllMapped(wire, c.id, c.mapping.bindings), c.id, [Replayed(c.id, t)]) <==>
            t.provider != "" && Free(wire, KeyOf(Replayed(c.id, t)), c.id)
  {
    var wire' := AllMapped(wire, c.id, c.mapping.bindings);
    MappedFreeIff(wire, c.id, c.mapping.bindings, KeyOf(Replayed(c.id, t)));
    assert [Replayed(c.id, t)][0] == Replayed(c.id, t);
  }

  lemma {:induction false} MappingHeld(wire: ByWire, c: ToolCall, t: Target, grown: ByWire)
    requires c.mapping.Bindings? && Admissible(wire, c.id, c.mapping.bindings)
    requires Keeps(AllMapped(wire, c.id, c.mapping.bindings), grown)
    requires First(c.mapping.bindings, t).None? ==>
               KeyOf(Replayed(c.id, t)) in grown && grown[KeyOf(Replayed(c.id, t))] == c.id
    ensures Keeps(wire, grown) && Owns(c, t, grown)
  {
    var bs := c.mapping.bindings;
    MappedGrows(wire, c.id, bs);
    forall k | Maps(c, t, k) ensures k in grown && grown[k] == c.id {
      if HasKey(bs, k) {
        var i :| 0 <= i < |bs| && KeyOf(bs[i]) == k;
        assert KeyOf(bs[i]) in AllMapped(wire, c.id, bs);
      }
    }
  }

  // Calls of a client that never saw an owned id.
  predicate Plain(c: ToolCall) {
    c.mapping.Absent? && !Owned(c.id) && !c.rejected
  }

  lemma {:induction false} KeyedHasFirst(bs: seq<WireId>, k: Key, t: Target)
    requires HasKey(bs, k) && k.provider == t.provider && k.wire == t.wire
    ensures First(bs, t).Some?
  {
    FirstIn(bs, t);
    var i :| 0 <= i < |bs| && KeyOf(bs[i]) == k;
    assert bs[i] in bs;
  }

  // The internal id of a call: the one it is persisted under, or one looked up or minted for it.
  method Own(
      m: ToolCallMap, c: ToolCall, t: Target, scope: string, part: nat, minted: string)
      returns (r: Result<string, ()>)
    requires m.Valid() && Owned(minted) && minted !in m.internal
    modifies m
    ensures m.Valid()
    ensures c.mapping.Unreadable? ==> r.Err?
    ensures c.mapping.Bindings? ==> (r.Ok? <==> Admissible(old(m.wire), c.id, c.mapping.bindings))
    ensures r.Ok? && c.mapping.Bindings? ==> m.wire == AllMapped(old(m.wire), c.id, c.mapping.bindings)
    ensures c.mapping.Absent? ==>
              (r.Ok? <==>
               && !Owned(c.id)
               && (KeyOf(Binding(t, scope, part, c.id)) in old(m.wire) || (t.provider != "" && scope != "")))
    ensures r.Err? || c.mapping.Absent? ==> Keeps(old(m.wire), m.wire)
    ensures forall x :: x in m.internal ==> x in old(m.internal) || x == minted || x == c.id
    ensures r.Ok? && c.mapping.Bindings? ==> r.value == c.id && c.id in m.internal
    ensures r.Ok? && c.mapping.Bindings? && c.id !in old(m.internal) ==>
              First(m.internal[c.id], t) == First(c.mapping.bindings, t)
    ensures r.Ok? && c.mapping.Absent? ==> r.value in m.internal && First(m.internal[r.value], t).Some?
    ensures r.Ok? && c.mapping.Absent? && KeyOf(Binding(t, scope, part, c.id)) !in old(m.wire) ==>
              r.value == minted && m.internal[minted] == [Binding(t, scope, part, c.id)]
    ensures forall k :: k in m.wire ==> k in old(m.wire) || Claims(c, t, scope, part, k)
  {
    match c.mapping {
      case Unreadable => return Err(());
      case Bindings(bs) =>
        var ok := m.Insert(c.id, bs);
        FirstAdded(bs, t);
        forall k | k in m.wire ensures k in old(m.wire) || Claims(c, t, scope, part, k) {
          if ok {
            MappedKeys(old(m.wire), c.id, bs, k);
          }
        }
        return if ok then Ok(c.id) else Err(());
      case Absent =>
        if Owned(c.id) {
          return Err(());
        }
        var b := Binding(t, scope, part, c.id);
        r := m.Register(b, minted);
        if r.Ok? {
          assert HasKey(m.internal[r.value], KeyOf(b));
          KeyedHasFirst(m.internal[r.value], KeyOf(b), t);
        }
    }
  }

  /**
   The identity of one call, had exactly when the target's rules accept it and either its mapping can be added, or it
   has none, is not an owned one, and an identity can be made up for it.
   */
  method Identify(m: ToolCallMap, c: ToolCall, t: Target, scope: string, part: nat, minted: string, order: nat)
      returns (r: Result<Identity, ()>)
    requires m.Valid() && Owned(minted) && minted !in m.internal
    modifies m
    ensures m.Valid()
    ensures c.mapping.Unreadable? ==> r.Err?
    ensures c.mapping.Absent? ==>
              (r.Ok? <==>
               && !c.rejected && !Owned(c.id)
               && (KeyOf(Binding(t, scope, part, c.id)) in old(m.wire) || (t.provider != "" && scope != "")))
    ensures c.mapping.Bindings? && c.id !in old(m.internal) ==>
              (r.Ok? <==> !c.rejected && Mappable(c, t, old(m.wire)))
    ensures forall x :: x in m.internal ==> x in old(m.internal) || x == minted || x == c.id
    ensures r.Ok? ==>
              && r.value.order == order && r.value.name == c.name
              && r.value.wire.provider == t.provider && r.value.wire.wire == t.wire
              && (c.mapping.Bindings? && c.id !in old(m.internal) ==> Persisted(c, r.value, t))
    ensures r.Ok? && c.mapping.Bindings? && c.id !in old(m.internal) ==>
              Shown(r.value) == ShownAs(c, t, minted) && Wears(c, t, minted, r.value)
    ensures r.Ok? && c.mapping.Absent? && KeyOf(Binding(t, scope, part, c.id)) !in old(m.wire) ==>
              Shown(r.value) == ShownAs(c, t, minted) && Wears(c, t, minted, r.value)
    ensures c.mapping.Absent? || c.id !in old(m.internal) ==>
              forall k :: k in m.wire ==> k in old(m.wire) || Claims(c, t, scope, part, k)
    ensures r.Ok? && (c.mapping.Absent? || c.id !in old(m.internal)) ==>
              Keeps(old(m.wire), m.wire) && Owns(c, t, m.wire)
  {
    var internal := Own(m, c, t, scope, part, minted);
    if internal.Err? {
      return Err(());
    }
    ghost var claimed := m.wire;
    if c.mapping.Bindings? {
      ReplayedAdmissible(old(m.wire), c, t);
    }
    var wire := m.ForTarget(internal.value, t);
    if c.mapping.Absent? || c.id !in old(m.internal) {
      forall k | k in m.wire ensures k in old(m.wire) || Claims(c, t, scope, part, k) {
        if k !in claimed {
          assert c.mapping.Bindings? && k == KeyOf(Replayed(c.id, t));
        }
      }
    }
    if wire.Err? || c.rejected {
      return Err(());
    }
    if c.mapping.Bindings? && c.id !in old(m.internal) {
      MappingHeld(old(m.wire), c, t, m.wire);
    }
    FirstMatches(m.internal[internal.value], t);
    return Ok(Identity(wire.value, c.name, internal.value, order));
  }

  lemma {:induction false} FirstMatches(bs: seq<WireId>, t: Target)
    ensures First(bs, t).Some? ==> First(bs, t).value.provider == t.provider && First(bs, t).value.wire == t.wire
    decreases |bs|
  {
    if bs != [] {
      FirstMatches(bs[1..], t);
    }
  }

  // ---------------------------------------------------------------- where a call stands

  // The number a text of digits stands for.
  function Value(s: string): int {
    if s == "" then 0 else 10 * Value(s[..|s| - 1]) + (s[|s| - 1] as int - '0' as int)
  }

  lemma {:induction false} DecimalReadsBack(n: nat)
    ensures Value(Decimal(n)) == n
    decreases n
  {
    var front, digit := if n < 10 then "" else Decimal(n / 10), "0123456789"[n % 10];
    ValueStep(front, digit);
    DigitReadsBack(n % 10);
    if n >= 10 {
      DecimalReadsBack(n / 10);
    }
  }

  lemma {:induction false} ValueStep(front: string, digit: char)
    ensures Value(front + [digit]) == 10 * Value(front) + (digit as int - '0' as int)
  {
    assert (front + [digit])[..|front|] == front;
  }

  lemma {:induction false} DigitReadsBack(d: nat)
    requires d < 10
    ensures "0123456789"[d] as int - '0' as int == d
  {
  }

  lemma {:induction false} DecimalInjective(a: nat, b: nat)
    requires Decimal(a) == Decimal(b)
    ensures a == b
  {
    DecimalReadsBack(a);
    DecimalReadsBack(b);
  }

  // How many messages begin before, and how many calls of the same message stand directly before.
  function Messages(h: seq<Item>): nat {
    if h == [] then 0 else Messages(h[..|h| - 1]) + if h[|h| - 1].Call? then 0 else 1
  }

  function Beside(h: seq<Item>): nat {
    if h == [] || !h[|h| - 1].Call? then 0 else Beside(h[..|h| - 1]) + 1
  }

  function ScopeAt(scope: string, h: seq<Item>, k: nat): string
    requires k <= |h|
  {
    scope + "/" + Decimal(SaturatingSub(Messages(h[..k]), 1))
  }

  // A call stands in a message.
  predicate Opens(h: seq<Item>) {
    h != [] ==> !h[0].Call?
  }

  lemma {:induction false} MessagesGrow(h: seq<Item>, i: nat, k: nat)
    requires i <= k <= |h|
    ensures Messages(h[..i]) <= Messages(h[..k])
    ensures Messages(h[..i]) == Messages(h[..k]) ==>
              Beside(h[..k]) == Beside(h[..i]) + (k - i) && forall j :: i <= j < k ==> h[j].Call?
    decreases k
  {
    if i < k {
      assert h[..k][..k - 1] == h[..k - 1];
      MessagesGrow(h, i, k - 1);
    }
  }

  lemma {:induction false} InMessage(h: seq<Item>, k: nat)
    requires Opens(h) && 0 < k <= |h|
    ensures Messages(h[..k]) > 0
  {
    assert h[..1][..0] == [];
    MessagesGrow(h, 1, k);
  }

  // Two calls in one message both await their answers.
  lemma {:induction false} NeighboursAwait(h: seq<Item>, i: nat, k: nat)
    requires Opens(h) && Paired(h) && i < k < |h| && h[i].Call? && h[k].Call?
    requires SaturatingSub(Messages(h[..i]), 1) == SaturatingSub(Messages(h[..k]), 1)
    ensures Beside(h[..i]) < Beside(h[..k]) && h[i].call.id != h[k].call.id
  {
    InMessage(h, i);
    InMessage(h, k);
    MessagesGrow(h, i, k);
    assert SoundAt(h, k);
    if h[i].call.id == h[k].call.id {
      assert Awaits(h, i, k, h[k].call.id);
    }
  }

  // The scope is new: no mapping in the history mentions it, and neither would a replayed id.
  ghost predicate FreshScope(h: seq<Item>, scope: string) {
    forall i :: 0 <= i < |h| && h[i].Call? ==>
      && !(scope + "/" <= "replay:" + h[i].call.id)
      && (h[i].call.mapping.Bindings? ==>
            forall b :: b in h[i].call.mapping.bindings ==> !(scope + "/" <= b.scope))
  }

  ghost predicate ClaimsAt(h: seq<Item>, t: Target, scope: string, i: nat, k: Key)
    requires i < |h|
  {
    h[i].Call? && Claims(h[i].call, t, ScopeAt(scope, h, i), Beside(h[..i]), k)
  }

  // Every wire identity taken so far is some earlier call's.
  ghost predicate Claimed(h: seq<Item>, n: nat, t: Target, scope: string, wire: ByWire)
    requires n <= |h|
  {
    forall k :: k in wire ==> exists i :: 0 <= i < n && ClaimsAt(h, t, scope, i, k)
  }

  lemma {:induction false} ClaimedGrows(h: seq<Item>, n: nat, t: Target, scope: string, wire: ByWire, grown: ByWire)
    requires n < |h| && h[n].Call? && Claimed(h, n, t, scope, wire)
    requires forall k :: k in grown ==> k in wire || Claims(h[n].call, t, ScopeAt(scope, h, n), Beside(h[..n]), k)
    ensures Claimed(h, n + 1, t, scope, grown)
  {
    forall k | k in grown ensures exists i :: 0 <= i < n + 1 && ClaimsAt(h, t, scope, i, k) {
      if k in wire {
        var i :| 0 <= i < n && ClaimsAt(h, t, scope, i, k);
      } else {
        assert ClaimsAt(h, t, scope, n, k);
      }
    }
  }

  /** The identity made up for a call that has none is not any earlier call's. */
  lemma {:induction false} KeyIsNew(h: seq<Item>, n: nat, t: Target, scope: string, i: nat)
    requires Opens(h) && Paired(h) && FreshScope(h, scope) && i < n < |h| && h[n].Call?
    requires h[n].call.mapping.Absent?
    ensures !ClaimsAt(h, t, scope, i, KeyOf(Binding(t, ScopeAt(scope, h, n), Beside(h[..n]), h[n].call.id)))
  {
    var b := Binding(t, ScopeAt(scope, h, n), Beside(h[..n]), h[n].call.id);
    assert SoundAt(h, n) && scope + "/" <= b.scope;
    if h[i].Call? {
      match h[i].call.mapping
      case Absent =>
        assert SoundAt(h, i);
        var a := Binding(t, ScopeAt(scope, h, i), Beside(h[..i]), h[i].call.id);
        if KeyOf(a) == KeyOf(b) {
          var x, y := SaturatingSub(Messages(h[..i]), 1), SaturatingSub(Messages(h[..n]), 1);
          assert a.scope[|scope| + 1..] == Decimal(x) && b.scope[|scope| + 1..] == Decimal(y);
          DecimalInjective(x, y);
          NeighboursAwait(h, i, n);
          if t.wire == GoogleGenerateContent {
            DecimalInjective(Beside(h[..i]), Beside(h[..n]));
          }
        }
      case _ =>
    }
  }

  lemma {:induction false} NotYetClaimed(h: seq<Item>, n: nat, t: Target, scope: string, wire: ByWire)
    requires Opens(h) && Paired(h) && FreshScope(h, scope) && n < |h| && h[n].Call? && h[n].call.mapping.Absent?
    requires Claimed(h, n, t, scope, wire)
    ensures KeyOf(Binding(t, ScopeAt(scope, h, n), Beside(h[..n]), h[n].call.id)) !in wire
  {
    var k := KeyOf(Binding(t, ScopeAt(scope, h, n), Beside(h[..n]), h[n].call.id));
    if k in wire {
      var i :| 0 <= i < n && ClaimsAt(h, t, scope, i, k);
      KeyIsNew(h, n, t, scope, i);
    }
  }

  // Every call goes out under the id its own mapping, the target and its turn to be minted give it.
  ghost predicate Shows(h: seq<Item>, out: seq<Ready>, t: Target, mints: nat -> string) {
    && |out| <= |h|
    && forall i :: 0 <= i < |out| && h[i].Call? ==>
         && out[i].ReadyCall? && Shown(out[i].identity) == ShownAs(h[i].call, t, mints(Calls(h[..i])))
         && Wears(h[i].call, t, mints(Calls(h[..i])), out[i].identity)
  }

  // ---------------------------------------------------------------- the whole history

  ghost predicate ReadyUpTo(h: seq<Item>, out: seq<Ready>, t: Target, k: nat) {
    && k == |out| <= |h|
    && (forall i :: 0 <= i < k ==> CallReady(h, out, t, i))
    && (forall j :: 0 <= j < k ==> AnswerReady(h, out, j))
    && (forall i :: 0 <= i < k && !h[i].Call? && !h[i].Answer? ==> out[i] == Kept(h[i]))
  }

  // The table of calls by logical id, as the loop keeps it.
  ghost predicate Filed(h: seq<Item>, out: seq<Ready>, k: nat, table: map<string, Identity>) {
    && k == |out| <= |h|
    && forall i :: 0 <= i < k && Latest(h, i, k) ==>
         out[i].ReadyCall? && h[i].call.id in table && table[h[i].call.id] == out[i].identity
  }

  lemma {:induction false} ReadyGrows(h: seq<Item>, out: seq<Ready>, t: Target, x: Ready)
    requires |out| < |h| && ReadyUpTo(h, out, t, |out|)
    requires CallReady(h, out + [x], t, |out|) && AnswerReady(h, out + [x], |out|)
    requires !h[|out|].Call? && !h[|out|].Answer? ==> x == Kept(h[|out|])
    ensures ReadyUpTo(h, out + [x], t, |out| + 1)
  {
    var next := out + [x];
    forall i | 0 <= i < |out| ensures CallReady(h, next, t, i) && AnswerReady(h, next, i) {
      assert CallReady(h, out, t, i) && AnswerReady(h, out, i);
      assert forall j :: 0 <= j <= i ==> next[j] == out[j];
    }
  }

  lemma {:induction false} FileCall(h: seq<Item>, out: seq<Ready>, table: map<string, Identity>, identity: Identity)
    requires |out| < |h| && h[|out|].Call? && Filed(h, out, |out|, table)
    ensures Filed(h, out + [ReadyCall(identity)], |out| + 1, table[h[|out|].call.id := identity])
  {
    var k, next := |out|, out + [ReadyCall(identity)];
    forall i | 0 <= i < k + 1 && Latest(h, i, k + 1)
      ensures next[i].ReadyCall? && h[i].call.id in table[h[k].call.id := identity]
              && table[h[k].call.id := identity][h[i].call.id] == next[i].identity
    {
      if i < k {
        assert Latest(h, i, k);
        assert !IsCall(h[k], h[i].call.id);
      }
    }
  }

  lemma {:induction false} FileOther(h: seq<Item>, out: seq<Ready>, table: map<string, Identity>, x: Ready)
    requires |out| < |h| && !h[|out|].Call? && Filed(h, out, |out|, table)
    ensures Filed(h, out + [x], |out| + 1, table)
  {
    var k := |out|;
    forall i | 0 <= i < k + 1 && Latest(h, i, k + 1)
      ensures (out + [x])[i].ReadyCall? && h[i].call.id in table && table[h[i].call.id] == (out + [x])[i].identity
    {
      assert Latest(h, i, k);
    }
  }

  // In a sound history an answer finds its call in the table.
  lemma {:induction false} AnswerFound(h: seq<Item>, out: seq<Ready>, table: map<string, Identity>)
    requires |out| < |h| && h[|out|].Answer? && Filed(h, out, |out|, table)
    requires Paired(h)
    ensures h[|out|].id.Some? && h[|out|].id.value in table
    ensures forall i :: 0 <= i < |out| && Awaits(h, i, |out|, h[|out|].id.value) ==>
              out[i].ReadyCall? && table[h[|out|].id.value] == out[i].identity
  {
    var k := |out|;
    assert SoundAt(h, k);
    var id := h[k].id.value;
    forall i | 0 <= i < k && Awaits(h, i, k, id)
      ensures out[i].ReadyCall? && id in table && table[id] == out[i].identity
    {
      AwaitingIsLatest(h, i, k, id);
    }
    var i :| 0 <= i < k && Awaits(h, i, k, id);
  }

  // Nothing in the map but what the history names and what was minted.
  ghost predicate Sourced(h: seq<Item>, k: nat, mints: nat -> string, order: nat, internal: Internal)
    requires k <= |h|
  {
    forall x :: x in internal ==>
                  (exists i :: 0 <= i < k && IsCall(h[i], x)) || exists j :: 0 <= j < order && mints(j) == x
  }

  // Minted ids are owned, distinct and new.
  ghost predicate FreshIds(h: seq<Item>, mints: nat -> string) {
    && (forall j: nat :: Owned(mints(j)))
    && (forall i: nat, j: nat :: mints(i) == mints(j) ==> i == j)
    && (forall i, j: nat :: 0 <= i < |h| ==> !IsCall(h[i], mints(j)))
  }

  lemma {:induction false} NotYetKnown(h: seq<Item>, k: nat, mints: nat -> string, order: nat, internal: Internal)
    requires k < |h| && h[k].Call? && FreshIds(h, mints) && Paired(h) && Sourced(h, k, mints, order, internal)
    ensures mints(order) !in internal
    ensures Bound(h[k].call) ==> h[k].call.id !in internal
  {
    assert SoundAt(h, k) && IsCall(h[k], h[k].call.id);
  }

  lemma {:induction false} SourcedGrows(
      h: seq<Item>, k: nat, mints: nat -> string, order: nat, internal: Internal, grown: Internal)
    requires k < |h| && h[k].Call? && Sourced(h, k, mints, order, internal)
    requires forall x :: x in grown ==> x in internal || x == mints(order) || x == h[k].call.id
    ensures Sourced(h, k + 1, mints, order + 1, grown)
  {
    assert IsCall(h[k], h[k].call.id);
  }

  lemma {:induction false} SourcedStays(h: seq<Item>, k: nat, mints: nat -> string, order: nat, internal: Internal)
    requires k < |h| && Sourced(h, k, mints, order, internal)
    ensures Sourced(h, k + 1, mints, order, internal)
  {
  }

  // Every answer that names a function names the one it was asked of.
  ghost predicate NamesAgree(h: seq<Item>) {
    forall i, k ::
      && 0 <= i < k < |h| && h[k].Answer? && h[k].id.Some? && h[k].name.Some?
      && Awaits(h, i, k, h[k].id.value) ==>
        h[k].name.value == h[i].call.name
  }

  ghost predicate AllPlain(h: seq<Item>) {
    forall i :: 0 <= i < |h| && h[i].Call? ==> Plain(h[i].call)
  }

  // ---------------------------------------------------------------- when a history can be rewritten

  // What the call's own mapping and the target ask, whatever else is in the history.
  predicate Fit(c: ToolCall, t: Target) {
    && !c.rejected
    && match c.mapping
       case Unreadable => false
       case Absent => !Owned(c.id) && t.provider != ""
       case Bindings(bs) =>
         && Owned(c.id) && bs != [] && (forall i :: 0 <= i < |bs| ==> ToolIds.Complete(bs[i]))
         && (First(bs, t).None? ==> t.provider != "")
  }

  // No two mapped calls claim one wire identity.
  ghost predicate ClaimApart(h: seq<Item>, t: Target, i: nat, j: nat)
    requires i < |h| && j < |h| && h[i].Call? && h[j].Call?
  {
    forall k :: !(Maps(h[i].call, t, k) && Maps(h[j].call, t, k))
  }

  ghost predicate RewritableAt(h: seq<Item>, t: Target, j: nat)
    requires j < |h|
  {
    h[j].Call? ==> Fit(h[j].call, t) && forall i :: 0 <= i < j && h[i].Call? ==> ClaimApart(h, t, i, j)
  }

  /** Every call fits the target, and no two mapped calls claim one wire identity. */
  ghost predicate Rewritable(h: seq<Item>, t: Target) {
    forall j :: 0 <= j < |h| ==> RewritableAt(h, t, j)
  }

  ghost predicate RewritableTo(h: seq<Item>, t: Target, n: nat)
    requires n <= |h|
  {
    n > 0 ==> RewritableTo(h, t, n - 1) && RewritableAt(h, t, n - 1)
  }

  lemma {:induction false} RewritableToMeaning(h: seq<Item>, t: Target, n: nat)
    requires n <= |h|
    ensures RewritableTo(h, t, n) <==> forall j :: 0 <= j < n ==> RewritableAt(h, t, j)
    decreases n
  {
    if n > 0 {
      RewritableToMeaning(h, t, n - 1);
    }
  }

  // Every mapped call before `n` owns what it claims.
  ghost predicate Holders(h: seq<Item>, n: nat, t: Target, wire: ByWire)
    requires n <= |h|
  {
    forall i :: 0 <= i < n && h[i].Call? ==> Owns(h[i].call, t, wire)
  }

  lemma {:induction false} HoldersGrow(h: seq<Item>, n: nat, t: Target, wire: ByWire, grown: ByWire)
    requires n < |h| && h[n].Call? && Holders(h, n, t, wire) && Keeps(wire, grown) && Owns(h[n].call, t, grown)
    ensures Holders(h, n + 1, t, grown)
  {
    forall i | 0 <= i < n + 1 && h[i].Call? ensures Owns(h[i].call, t, grown) {
      if i < n {
        assert Owns(h[i].call, t, wire);
      }
    }
  }

  // A key that a mapped call wants and that is taken is an earlier mapped call's.
  lemma {:induction false} TakenByEarlier(h: seq<Item>, n: nat, t: Target, scope: string, wire: ByWire, k: Key)
      returns (i: nat)
    requires FreshScope(h, scope) && n < |h| && h[n].Call? && Claimed(h, n, t, scope, wire)
    requires Maps(h[n].call, t, k) && k in wire
    ensures i < n && h[i].Call? && !ClaimApart(h, t, i, n)
  {
    i :| 0 <= i < n && ClaimsAt(h, t, scope, i, k);
    var c := h[n].call;
    assert !(scope + "/" <= k.scope) by {
      if HasKey(c.mapping.bindings, k) {
        var j :| 0 <= j < |c.mapping.bindings| && KeyOf(c.mapping.bindings[j]) == k;
        assert c.mapping.bindings[j] in c.mapping.bindings;
      }
    }
    assert scope + "/" <= ScopeAt(scope, h, i);
    assert Maps(h[i].call, t, k);
  }

  lemma {:induction false} MappableIfRewritable(h: seq<Item>, n: nat, t: Target, scope: string, wire: ByWire)
    requires FreshScope(h, scope) && n < |h| && h[n].Call? && h[n].call.mapping.Bindings?
    requires Claimed(h, n, t, scope, wire) && RewritableAt(h, t, n)
    ensures Mappable(h[n].call, t, wire)
  {
    var c := h[n].call;
    forall k | Maps(c, t, k) ensures k !in wire {
      if k in wire {
        var _ := TakenByEarlier(h, n, t, scope, wire, k);
      }
    }
    forall i | 0 <= i < |c.mapping.bindings| ensures Free(wire, KeyOf(c.mapping.bindings[i]), c.id) {
      assert Maps(c, t, KeyOf(c.mapping.bindings[i]));
    }
    assert First(c.mapping.bindings, t).None? ==> Maps(c, t, KeyOf(Replayed(c.id, t)));
  }

  lemma {:induction false} MappableIsFree(c: ToolCall, t: Target, wire: ByWire, k: Key)
    requires c.mapping.Bindings? && Mappable(c, t, wire) && Maps(c, t, k)
    ensures Free(wire, k, c.id)
  {
    if HasKey(c.mapping.bindings, k) {
      var j :| 0 <= j < |c.mapping.bindings| && KeyOf(c.mapping.bindings[j]) == k;
      assert Free(wire, KeyOf(c.mapping.bindings[j]), c.id);
    }
  }

  lemma {:induction false} RewritableIfMappable(h: seq<Item>, n: nat, t: Target, wire: ByWire)
    requires Paired(h) && n < |h| && h[n].Call? && h[n].call.mapping.Bindings? && !h[n].call.rejected
    requires Holders(h, n, t, wire) && Mappable(h[n].call, t, wire)
    ensures RewritableAt(h, t, n)
  {
    var c := h[n].call;
    assert SoundAt(h, n);
    forall i | 0 <= i < n && h[i].Call? ensures ClaimApart(h, t, i, n) {
      assert Owns(h[i].call, t, wire) && !IsCall(h[i], c.id);
      forall k ensures !(Maps(h[i].call, t, k) && Maps(c, t, k)) {
        if Maps(c, t, k) {
          MappableIsFree(c, t, wire, k);
        }
      }
    }
  }

  // A call without a mapping claims nothing that lasts.
  lemma {:induction false} PlainRewritable(h: seq<Item>, n: nat, t: Target)
    requires n < |h| && h[n].Call? && !h[n].call.mapping.Bindings?
    ensures RewritableAt(h, t, n) <==> Fit(h[n].call, t)
  {
    assert forall k :: !Maps(h[n].call, t, k);
  }

  // The state the loop is in tells exactly whether the next call can be rewritten.
  lemma {:induction false} RewritableExactly(h: seq<Item>, n: nat, t: Target, scope: string, wire: ByWire)
    requires Opens(h) && Paired(h) && FreshScope(h, scope) && n < |h| && h[n].Call?
    requires Claimed(h, n, t, scope, wire) && Holders(h, n, t, wire)
    ensures var c := h[n].call;
            RewritableAt(h, t, n) <==>
            && !c.rejected
            && match c.mapping
               case Unreadable => false
               case Absent => !Owned(c.id) && t.provider != ""
               case Bindings(_) => Mappable(c, t, wire)
    ensures h[n].call.mapping.Absent? ==>
              KeyOf(Binding(t, ScopeAt(scope, h, n), Beside(h[..n]), h[n].call.id)) !in wire
  {
    match h[n].call.mapping
    case Bindings(_) =>
      if RewritableAt(h, t, n) {
        MappableIfRewritable(h, n, t, scope, wire);
      }
      if Mappable(h[n].call, t, wire) && !h[n].call.rejected {
        RewritableIfMappable(h, n, t, wire);
      }
    case Absent =>
      PlainRewritable(h, n, t);
      NotYetClaimed(h, n, t, scope, wire);
    case Unreadable => PlainRewritable(h, n, t);
  }

  // What the loop has done after `k` items.
  ghost predicate Rewritten(
      h: seq<Item>, k: nat, t: Target, scope: string, mints: nat -> string, internal: Internal, wire: ByWire,
      out: seq<Ready>, table: map<string, Identity>)
  {
    && k <= |h| && Recorded(h, k, t, scope, mints, internal, wire, out, table)
    && (FreshScope(h, scope) && Opens(h) ==> Shows(h, out, t, mints) && RewritableTo(h, t, k))
  }

  ghost predicate Recorded(
      h: seq<Item>, k: nat, t: Target, scope: string, mints: nat -> string, internal: Internal, wire: ByWire,
      out: seq<Ready>, table: map<string, Identity>)
    requires k <= |h|
  {
    && Sourced(h, k, mints, Calls(h[..k]), internal) && Claimed(h, k, t, scope, wire)
    && ReadyUpTo(h, out, t, k) && Filed(h, out, k, table) && Holders(h, k, t, wire)
  }

  // What identifying the call at `k` gives.
  ghost predicate IdentifiedAt(
      h: seq<Item>, k: nat, t: Target, scope: string, mints: nat -> string, internal: Internal, wire: ByWire,
      grown: Internal, claimed: ByWire, identity: Identity)
  {
    && k < |h| && h[k].Call? && RecordedAt(h, k, t, scope, mints, internal, wire, grown, claimed, identity)
    && (FreshScope(h, scope) && Opens(h) ==>
          && Shown(identity) == ShownAs(h[k].call, t, mints(Calls(h[..k])))
          && Wears(h[k].call, t, mints(Calls(h[..k])), identity) && RewritableAt(h, t, k))
  }

  ghost predicate RecordedAt(
      h: seq<Item>, k: nat, t: Target, scope: string, mints: nat -> string, internal: Internal, wire: ByWire,
      grown: Internal, claimed: ByWire, identity: Identity)
    requires k < |h| && h[k].Call?
  {
    && identity.order == Calls(h[..k]) && identity.name == h[k].call.name
    && identity.wire.provider == t.provider && identity.wire.wire == t.wire
    && (h[k].call.mapping.Bindings? ==> Persisted(h[k].call, identity, t))
    && (forall x :: x in grown ==> x in internal || x == mints(Calls(h[..k])) || x == h[k].call.id)
    && (forall key :: key in claimed ==>
          key in wire || Claims(h[k].call, t, ScopeAt(scope, h, k), Beside(h[..k]), key))
    && Keeps(wire, claimed) && Owns(h[k].call, t, claimed)
  }

  lemma {:induction false} ShowsGrow(h: seq<Item>, out: seq<Ready>, t: Target, mints: nat -> string, identity: Identity)
    requires |out| < |h| && h[|out|].Call? && Shows(h, out, t, mints)
    requires Shown(identity) == ShownAs(h[|out|].call, t, mints(Calls(h[..|out|])))
    requires Wears(h[|out|].call, t, mints(Calls(h[..|out|])), identity)
    ensures Shows(h, out + [ReadyCall(identity)], t, mints)
  {
  }

  lemma {:induction false} RecordedCall(
      h: seq<Item>, k: nat, t: Target, scope: string, mints: nat -> string, internal: Internal, wire: ByWire,
      grown: Internal, claimed: ByWire, out: seq<Ready>, table: map<string, Identity>, identity: Identity)
    requires k < |h| && h[k].Call? && Recorded(h, k, t, scope, mints, internal, wire, out, table)
    requires RecordedAt(h, k, t, scope, mints, internal, wire, grown, claimed, identity)
    ensures Recorded(h, k + 1, t, scope, mints, grown, claimed, out + [ReadyCall(identity)],
                     table[h[k].call.id := identity])
  {
    assert h[..k + 1][..k] == h[..k];
    FileCall(h, out, table, identity);
    ReadyGrows(h, out, t, ReadyCall(identity));
    SourcedGrows(h, k, mints, Calls(h[..k]), internal, grown);
    ClaimedGrows(h, k, t, scope, wire, claimed);
    HoldersGrow(h, k, t, wire, claimed);
  }

  lemma {:induction false} RewrittenCall(
      h: seq<Item>, k: nat, t: Target, scope: string, mints: nat -> string, internal: Internal, wire: ByWire,
      grown: Internal, claimed: ByWire, out: seq<Ready>, table: map<string, Identity>, identity: Identity)
    requires Rewritten(h, k, t, scope, mints, internal, wire, out, table)
    requires IdentifiedAt(h, k, t, scope, mints, internal, wire, grown, claimed, identity)
    ensures Rewritten(h, k + 1, t, scope, mints, grown, claimed, out + [ReadyCall(identity)],
                      table[h[k].call.id := identity])
  {
    RecordedCall(h, k, t, scope, mints, internal, wire, grown, claimed, out, table, identity);
    if FreshScope(h, scope) && Opens(h) {
      ShowsGrow(h, out, t, mints, identity);
    }
  }

  lemma {:induction false} RewrittenOther(
      h: seq<Item>, k: nat, t: Target, scope: string, mints: nat -> string, internal: Internal, wire: ByWire,
      out: seq<Ready>, table: map<string, Identity>, x: Ready)
    requires Rewritten(h, k, t, scope, mints, internal, wire, out, table) && k < |h| && !h[k].Call?
    requires AnswerReady(h, out + [x], k) && (!h[k].Answer? ==> x == Kept(h[k]))
    ensures Rewritten(h, k + 1, t, scope, mints, internal, wire, out + [x], table)
  {
    assert h[..k + 1][..k] == h[..k];
    SourcedStays(h, k, mints, Calls(h[..k]), internal);
    FileOther(h, out, table, x);
    ReadyGrows(h, out, t, x);
  }

  // One call of the history.
  method IdentifyAt(
      m: ToolCallMap, h: seq<Item>, k: nat, t: Target, scope: string, mints: nat -> string, order: nat, message: nat,
      part: nat, ghost out: seq<Ready>, ghost table: map<string, Identity>) returns (r: Result<Identity, ()>)
    requires m.Valid() && FreshIds(h, mints) && Paired(h) && k < |h| && h[k].Call?
    requires order == Calls(h[..k]) && message == Messages(h[..k]) && part == Beside(h[..k])
    requires Rewritten(h, k, t, scope, mints, m.internal, m.wire, out, table)
    modifies m
    ensures m.Valid()
    ensures r.Ok? ==> IdentifiedAt(h, k, t, scope, mints, old(m.internal), old(m.wire), m.internal, m.wire, r.value)
    ensures FreshScope(h, scope) && Opens(h) ==> (r.Ok? <==> RewritableAt(h, t, k))
    ensures Plain(h[k].call) && t.provider != "" ==> r.Ok?
  {
    NotYetKnown(h, k, mints, order, m.internal);
    if FreshScope(h, scope) && Opens(h) {
      RewritableExactly(h, k, t, scope, m.wire);
    }
    r := Identify(m, h[k].call, t, scope + "/" + Decimal(SaturatingSub(message, 1)), part, mints(order), order);
  }

  lemma {:induction false} NameDiffers(h: seq<Item>, out: seq<Ready>, t: Target, table: map<string, Identity>)
    requires |out| < |h| && h[|out|].Answer? && h[|out|].id.Some? && h[|out|].id.value in table
    requires ReadyUpTo(h, out, t, |out|) && SoundAt(h, |out|)
    requires forall i :: 0 <= i < |out| && Awaits(h, i, |out|, h[|out|].id.value) ==>
               out[i].ReadyCall? && table[h[|out|].id.value] == out[i].identity
    requires h[|out|].name.Some? && h[|out|].name.value != table[h[|out|].id.value].name
    ensures !NamesAgree(h)
  {
    var k := |out|;
    var i :| 0 <= i < k && Awaits(h, i, k, h[k].id.value);
    assert CallReady(h, out, t, i);
  }

  // The identity an answer is known by: its call's, if it does not name another function.
  method AnswerAt(
      h: seq<Item>, k: nat, t: Target, table: map<string, Identity>, ghost out: seq<Ready>)
      returns (r: Result<Identity, ()>)
    requires Paired(h) && k == |out| < |h| && h[k].Answer? && ReadyUpTo(h, out, t, k) && Filed(h, out, k, table)
    ensures r.Ok? ==> AnswerReady(h, out + [ReadyAnswer(r.value)], k)
    ensures NamesAgree(h) ==> r.Ok?
  {
    AnswerFound(h, out, table);
    var identity := table[h[k].id.value];
    if h[k].name.Some? && h[k].name.value != identity.name {
      NameDiffers(h, out, t, table);
      return Err(());
    }
    return Ok(identity);
  }

  // One item of the history.
  method RewriteAt(
      m: ToolCallMap, h: seq<Item>, k: nat, t: Target, scope: string, mints: nat -> string, order: nat, message: nat,
      part: nat, out: seq<Ready>, table: map<string, Identity>)
      returns (ok: bool, grown: seq<Ready>, filed: map<string, Identity>)
    requires m.Valid() && FreshIds(h, mints) && Paired(h) && k < |h|
    requires order == Calls(h[..k]) && message == Messages(h[..k]) && part == Beside(h[..k])
    requires Rewritten(h, k, t, scope, mints, m.internal, m.wire, out, table)
    modifies m
    ensures m.Valid()
    ensures ok ==> Rewritten(h, k + 1, t, scope, mints, m.internal, m.wire, grown, filed)
    ensures FreshScope(h, scope) && Opens(h) && !ok ==> !(RewritableAt(h, t, k) && NamesAgree(h))
    ensures t.provider != "" && NamesAgree(h) && AllPlain(h) ==> ok
  {
    if h[k].Call? {
      ghost var internal, wire := m.internal, m.wire;
      var identity := IdentifyAt(m, h, k, t, scope, mints, order, message, part, out, table);
      if identity.Err? {
        return false, out, table;
      }
      RewrittenCall(h, k, t, scope, mints, internal, wire, m.internal, m.wire, out, table, identity.value);
      return true, out + [ReadyCall(identity.value)], table[h[k].call.id := identity.value];
    }
    var x := Kept(h[k]);
    if h[k].Answer? {
      var identity := AnswerAt(h, k, t, table, out);
      if identity.Err? {
        return false, out, table;
      }
      x := ReadyAnswer(identity.value);
    }
    RewrittenOther(h, k, t, scope, mints, m.internal, m.wire, out, table, x);
    return true, out + [x], table;
  }

  lemma {:induction false} CountsStep(h: seq<Item>, k: nat)
    requires k < |h|
    ensures Calls(h[..k + 1]) == Calls(h[..k]) + if h[k].Call? then 1 else 0
    ensures Messages(h[..k + 1]) == Messages(h[..k]) + if h[k].Call? then 0 else 1
    ensures Beside(h[..k + 1]) == if h[k].Call? then Beside(h[..k]) + 1 else 0
  {
    assert h[..k + 1][..k] == h[..k];
  }

  lemma {:induction false} RewrittenWhole(
      h: seq<Item>, t: Target, scope: string, mints: nat -> string, internal: Internal, wire: ByWire, out: seq<Ready>,
      table: map<string, Identity>)
    requires Rewritten(h, |h|, t, scope, mints, internal, wire, out, table)
    ensures Identified(h, out, t) && NamesAgree(h)
    ensures FreshScope(h, scope) && Opens(h) ==> Shows(h, out, t, mints) && Rewritable(h, t)
  {
    forall i, k |
      && 0 <= i < k < |h| && h[k].Answer? && h[k].id.Some? && h[k].name.Some?
      && Awaits(h, i, k, h[k].id.value)
      ensures h[k].name.value == h[i].call.name
    {
      assert AnswerReady(h, out, k) && CallReady(h, out, t, i);
    }
    RewritableToMeaning(h, t, |h|);
  }

  lemma {:induction false} NothingRewritten(h: seq<Item>, t: Target, scope: string, mints: nat -> string)
    ensures Calls(h[..0]) == Messages(h[..0]) == Beside(h[..0]) == 0
    ensures Rewritten(h, 0, t, scope, mints, map[], map[], [], map[])
  {
    assert h[..0] == [];
  }

  // The loop over the items.
  method RewriteItems(m: ToolCallMap, h: seq<Item>, t: Target, scope: string, mints: nat -> string)
      returns (ok: bool, out: seq<Ready>, table: map<string, Identity>)
    requires m.Valid() && m.internal == map[] && m.wire == map[] && FreshIds(h, mints) && Paired(h)
    modifies m
    ensures ok ==> Rewritten(h, |h|, t, scope, mints, m.internal, m.wire, out, table)
    ensures FreshScope(h, scope) && Opens(h) && !ok ==> !(Rewritable(h, t) && NamesAgree(h))
    ensures t.provider != "" && NamesAgree(h) && AllPlain(h) ==> ok
  {
    ok, out, table := true, [], map[];
    var order, message, part := 0, 0, 0;
    NothingRewritten(h, t, scope, mints);
    for k := 0 to |h|
      invariant ok && m.Valid() && Rewritten(h, k, t, scope, mints, m.internal, m.wire, out, table)
      invariant order == Calls(h[..k]) && message == Messages(h[..k]) && part == Beside(h[..k])
    {
      CountsStep(h, k);
      ok, out, table := RewriteAt(m, h, k, t, scope, mints, order, message, part, out, table);
      if !ok {
        return;
      }
      if h[k].Call? {
        order, part := order + 1, part + 1;
      } else {
        message, part := message + 1, 0;
      }
    }
  }

  /**
   Every call and every answer gets the identity of its call. With a new scope, the id each call goes out under is
   decided by the call itself, and a history is refused exactly when some call does not fit the target, two mapped calls
   claim one wire identity, or an answer names another function than it was asked of.
   */
  method Rewrite(h: seq<Item>, t: Target, scope: string, mints: nat -> string) returns (r: Result<seq<Ready>, ()>)
    requires FreshIds(h, mints) && Paired(h)
    ensures r.Ok? ==> Identified(h, r.value, t)
    ensures r.Ok? && FreshScope(h, scope) && Opens(h) ==> Shows(h, r.value, t, mints)
    ensures FreshScope(h, scope) && Opens(h) ==> (r.Ok? <==> Rewritable(h, t) && NamesAgree(h))
    ensures t.provider != "" && NamesAgree(h) && AllPlain(h) ==> r.Ok?
  {
    var m := new ToolCallMap();
    var ok, out, table := RewriteItems(m, h, t, scope, mints);
    if !ok {
      return Err(());
    }
    RewrittenWhole(h, t, scope, mints, m.internal, m.wire, out, table);
    return Ok(out);
  }

  /** Distinct answers are for distinct calls, so their orders differ. */
  lemma {:induction false} DistinctOrders(h: seq<Item>, out: seq<Ready>, t: Target, j: nat, k: nat)
    requires Paired(h) && Identified(h, out, t) && j < k < |h| && h[j].Answer? && h[k].Answer?
    ensures out[j].ReadyAnswer? && out[k].ReadyAnswer? && out[j].identity.order != out[k].identity.order
  {
    assert SoundAt(h, j) && SoundAt(h, k) && AnswerReady(h, out, j) && AnswerReady(h, out, k);
    var a :| 0 <= a < j && Awaits(h, a, j, h[j].id.value);
    var b :| 0 <= b < k && Awaits(h, b, k, h[k].id.value);
    assert CallReady(h, out, t, a) && CallReady(h, out, t, b);
    assert a != b;
    if a < b {
      CallsGrow(h, a, b);
    } else {
      CallsGrow(h, b, a);
    }
  }

  lemma {:induction false} CallsGrow(h: seq<Item>, a: nat, b: nat)
    requires a < b <= |h| && h[a].Call?
    ensures Calls(h[..a]) < Calls(h[..b])
    decreases b
  {
    assert h[..b][..b - 1] == h[..b - 1];
    if a < b - 1 {
      CallsGrow(h, a, b - 1);
    }
  }

  // ---------------------------------------------------------------- one turn of several native items

  // With native output items, an assistant item that follows another directly belongs to the same turn.
  function Joined(h: seq<Item>): (r: seq<Item>)
    ensures |r| == |h|
  {
    if h == [] then []
    else
      var n := |h| - 1;
      Joined(h[..n]) + [if h[n].Turn? && n > 0 && (h[n - 1].Turn? || h[n - 1].Call?) then Other else h[n]]
  }

  lemma {:induction false} JoinedAt(h: seq<Item>, i: nat)
    requires i < |h|
    ensures Joined(h)[i] == if h[i].Turn? && i > 0 && (h[i - 1].Turn? || h[i - 1].Call?) then Other else h[i]
    decreases |h|
  {
    var n := |h| - 1;
    if i < n {
      JoinedAt(h[..n], i);
    }
  }

  method JoinTurns(h: seq<Item>) returns (r: seq<Item>)
    ensures r == Joined(h)
  {
    r := [];
    for k := 0 to |h|
      invariant r == Joined(h[..k])
    {
      assert h[..k + 1][..k] == h[..k];
      var joins := h[k].Turn? && k > 0 && (h[k - 1].Turn? || h[k - 1].Call?);
      r := r + [if joins then Other else h[k]];
    }
    assert h[..|h|] == h;
  }

  // Calls and answers, and so who awaits whom, are as before.
  lemma {:induction false} JoinedAwaits(h: seq<Item>, i: nat, j: nat, id: string)
    requires i < j <= |h|
    ensures Awaits(Joined(h), i, j, id) <==> Awaits(h, i, j, id)
    ensures h[i].Call? ==> Joined(h)[i] == h[i] && (AnsweredBy(Joined(h), i, j) <==> AnsweredBy(h, i, j))
  {
    forall k | 0 <= k < |h| ensures Joined(h)[k] == h[k] || (Joined(h)[k].Other? && h[k].Turn?) {
      JoinedAt(h, k);
    }
  }

  lemma {:induction false} JoinedSoundAt(h: seq<Item>, j: nat)
    requires j < |h|
    ensures !h[j].Turn? ==> (SoundAt(Joined(h), j) <==> SoundAt(h, j))
    ensures SoundAt(h, j) ==> SoundAt(Joined(h), j)
  {
    JoinedAt(h, j);
    forall i, id | 0 <= i < j ensures Awaits(Joined(h), i, j, id) <==> Awaits(h, i, j, id) {
      JoinedAwaits(h, i, j, id);
    }
    forall i | 0 <= i < j ensures Joined(h)[i] == h[i] || (Joined(h)[i].Other? && h[i].Turn?) {
      JoinedAt(h, i);
    }
    forall i | 0 <= i < j && h[i].Call? ensures AnsweredBy(Joined(h), i, j) <==> AnsweredBy(h, i, j) {
      JoinedAwaits(h, i, j, h[i].call.id);
    }
  }

  /** Joining turns accepts more, and never a history whose calls and answers do not pair up. */
  lemma {:induction false} JoinedSound(h: seq<Item>)
    ensures Sound(h) ==> Sound(Joined(h))
    ensures Sound(Joined(h)) ==> Paired(h)
  {
    forall j | 0 <= j < |h|
      ensures (SoundAt(h, j) ==> SoundAt(Joined(h), j)) && (!h[j].Turn? && SoundAt(Joined(h), j) ==> SoundAt(h, j))
    {
      JoinedSoundAt(h, j);
    }
    forall i | 0 <= i < |h|
      ensures Joined(h)[i].Call? ==> h[i].Call? && (AnsweredBy(Joined(h), i, |h|) <==> AnsweredBy(h, i, |h|))
    {
      JoinedAt(h, i);
      JoinedAwaits(h, i, |h|, "");
    }
  }
}
