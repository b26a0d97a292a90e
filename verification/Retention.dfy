/** What a stream may keep: footprints, the shared ledger, and the size estimate of one JSON value. */
module Retention {
  import opened Common

  const USIZE_MAX := 0xFFFF_FFFF_FFFF_FFFF
  const MAX_BYTES := 64 * 1024 * 1024
  const MAX_ENTRIES := 65_536
  const MAP_ENTRY_OVERHEAD := 64
  // Sizes of a JSON value and of a vector header on a 64-bit target.
  const VALUE_BYTES := 32
  const VECTOR_BYTES := 24

  datatype Footprint = Footprint(bytes: nat, entries: nat) {
    predicate Fits(room: Footprint) {
      bytes <= room.bytes && entries <= room.entries
    }

    function Plus(other: Footprint): Footprint {
      Footprint(bytes + other.bytes, entries + other.entries)
    }

    function Minus(other: Footprint): Footprint
      requires other.Fits(this)
    {
      Footprint(bytes - other.bytes, entries - other.entries)
    }

    function CheckedAdd(other: Footprint): Option<Footprint> {
      if Plus(other).Fits(Footprint(USIZE_MAX, USIZE_MAX)) then Some(Plus(other)) else None
    }
  }

  const ZERO := Footprint(0, 0)

  function Record(bytes: nat): Footprint {
    Footprint(Min(bytes + MAP_ENTRY_OVERHEAD, USIZE_MAX), 1)
  }

  // ---------------------------------------------------------------- the ledger

  class RetainedBudget {
    var retained: Footprint
    const limit: Footprint

    ghost predicate Valid()
      reads this
    {
      retained.Fits(limit) && limit.Fits(Footprint(USIZE_MAX, USIZE_MAX))
    }

    constructor (maxBytes: nat, maxEntries: nat)
      requires maxBytes <= USIZE_MAX && maxEntries <= USIZE_MAX
      ensures Valid() && retained == ZERO && limit == Footprint(maxBytes, maxEntries)
    {
      retained := ZERO;
      limit := Footprint(maxBytes, maxEntries);
    }

    /**
     Swaps one charge for another exactly when the old one is on the ledger and the new total is within the limit;
     otherwise nothing moves.
     */
    method Replace(previous: Footprint, replacement: Footprint) returns (ok: bool)
      requires Valid()
      modifies this
      ensures Valid()
      ensures ok <==> previous.Fits(old(retained)) && old(retained).Minus(previous).Plus(replacement).Fits(limit)
      ensures ok ==> retained == old(retained).Minus(previous).Plus(replacement)
      ensures !ok ==> retained == old(retained)
    {
      if retained.bytes < previous.bytes || retained.entries < previous.entries {
        return false;
      }
      var bytes := retained.bytes - previous.bytes + replacement.bytes;
      var entries := retained.entries - previous.entries + replacement.entries;
      if bytes > USIZE_MAX || entries > USIZE_MAX {
        return false;
      }
      if bytes > limit.bytes || entries > limit.entries {
        return false;
      }
      retained := Footprint(bytes, entries);
      ok := true;
    }

    method Reserve(footprint: Footprint) returns (ok: bool)
      requires Valid()
      modifies this
      ensures Valid()
      ensures ok <==> old(retained).Plus(footprint).Fits(limit)
      ensures retained == if ok then old(retained).Plus(footprint) else old(retained)
    {
      ok := Replace(ZERO, footprint);
    }

    method Release(footprint: Footprint)
      requires Valid()
      modifies this
      ensures Valid()
      ensures footprint.Fits(old(retained)) ==> retained == old(retained).Minus(footprint)
      ensures retained.bytes == SaturatingSub(old(retained).bytes, footprint.bytes)
      ensures retained.entries == SaturatingSub(old(retained).entries, footprint.entries)
    {
      retained := Footprint(SaturatingSub(retained.bytes, footprint.bytes),
                            SaturatingSub(retained.entries, footprint.entries));
    }

    method Reset()
      requires Valid()
      modifies this
      ensures Valid() && retained == ZERO
    {
      retained := ZERO;
    }
  }

  // ---------------------------------------------------------------- charges held per key

  ghost function SumBytes<K>(m: map<K, Footprint>): nat
    decreases |m|, 1
  {
    if m == map[] then 0 else var k :| k in m; BytesWith(m, k)
  }

  ghost function BytesWith<K>(m: map<K, Footprint>, k: K): nat
    requires k in m
    decreases |m|, 0
  {
    SumBytes(m - {k}) + m[k].bytes
  }

  ghost function SumEntries<K>(m: map<K, Footprint>): nat
    decreases |m|, 1
  {
    if m == map[] then 0 else var k :| k in m; EntriesWith(m, k)
  }

  ghost function EntriesWith<K>(m: map<K, Footprint>, k: K): nat
    requires k in m
    decreases |m|, 0
  {
    SumEntries(m - {k}) + m[k].entries
  }

  // Any key may be taken out first.
  lemma {:induction false} SumBytesWithout<K>(m: map<K, Footprint>, k: K)
    requires k in m
    ensures SumBytes(m) == SumBytes(m - {k}) + m[k].bytes
    decreases |m|
  {
    var x :| x in m && SumBytes(m) == BytesWith(m, x);
    assert BytesWith(m, x) == SumBytes(m - {x}) + m[x].bytes;
    if x != k {
      SumBytesWithout(m - {x}, k);
      SumBytesWithout(m - {k}, x);
      assert m - {x} - {k} == m - {k} - {x};
    }
  }

  lemma {:induction false} SumEntriesWithout<K>(m: map<K, Footprint>, k: K)
    requires k in m
    ensures SumEntries(m) == SumEntries(m - {k}) + m[k].entries
    decreases |m|
  {
    var x :| x in m && SumEntries(m) == EntriesWith(m, x);
    assert EntriesWith(m, x) == SumEntries(m - {x}) + m[x].entries;
    if x != k {
      SumEntriesWithout(m - {x}, k);
      SumEntriesWithout(m - {k}, x);
      assert m - {x} - {k} == m - {k} - {x};
    }
  }

  // The charge currently held for a key.
  function Held<K(==)>(m: map<K, Footprint>, k: K): Footprint {
    if k in m then m[k] else ZERO
  }

  /** Rewriting one key's charge moves the total by exactly that key's difference. */
  lemma {:induction false} SumUpdate<K>(m: map<K, Footprint>, k: K, charge: Footprint)
    ensures SumBytes(m[k := charge]) == SumBytes(m) - Held(m, k).bytes + charge.bytes
    ensures SumEntries(m[k := charge]) == SumEntries(m) - Held(m, k).entries + charge.entries
    ensures Held(m, k).bytes <= SumBytes(m) && Held(m, k).entries <= SumEntries(m)
  {
    var n := m[k := charge];
    SumBytesWithout(n, k);
    SumEntriesWithout(n, k);
    if k in m {
      SumBytesWithout(m, k);
      SumEntriesWithout(m, k);
      assert n - {k} == m - {k};
    } else {
      assert n - {k} == m;
    }
  }

  // ---------------------------------------------------------------- size of a JSON value

  datatype Field = Field(key: string, keyCapacity: nat, value: Json)

  datatype Json =
    | Null
    | Bool(b: bool)
    | Number
    | Text(capacity: nat)
    | Array(items: seq<Json>, slots: nat)
    | Object(fields: seq<Field>)

  function Children(v: Json): seq<Json> {
    match v
    case Array(items, _) => items
    case Object(fields) => Values(fields)
    case _ => []
  }

  function Values(fields: seq<Field>): (vs: seq<Json>)
    ensures |vs| == |fields|
    ensures forall i :: 0 <= i < |fields| ==> vs[i] == fields[i].value
  {
    if fields == [] then [] else [fields[0].value] + Values(fields[1..])
  }

  function KeyBytes(fields: seq<Field>): nat {
    if fields == [] then 0 else KeyBytes(fields[..|fields| - 1]) + fields[|fields| - 1].keyCapacity
  }

  // Bytes a node holds besides its own record.
  function Payload(v: Json): nat {
    match v
    case Text(capacity) => capacity
    case Array(_, slots) => VECTOR_BYTES + slots * VALUE_BYTES
    case Object(fields) => |fields| * MAP_ENTRY_OVERHEAD + KeyBytes(fields)
    case _ => 0
  }

  /** The whole tree, in nodes and in bytes: one record a node, plus what each node holds. */
  function Nodes(v: Json): (n: nat)
    ensures n >= 1
    decreases v, 0
  {
    match v
    case Array(items, _) => 1 + NodesAll(items)
    case Object(fields) => 1 + NodesFields(fields)
    case _ => 1
  }

  function NodesAll(vs: seq<Json>): (n: nat)
    ensures n >= |vs|
    decreases vs, 1
  {
    if vs == [] then 0 else NodesAll(vs[..|vs| - 1]) + Nodes(vs[|vs| - 1])
  }

  function NodesFields(fields: seq<Field>): nat
    decreases fields, 1
  {
    if fields == [] then 0 else NodesFields(fields[..|fields| - 1]) + Nodes(fields[|fields| - 1].value)
  }

  function Bytes(v: Json): nat
    decreases v, 0
  {
    VALUE_BYTES + MAP_ENTRY_OVERHEAD + Payload(v) +
    match v
    case Array(items, _) => BytesAll(items)
    case Object(fields) => BytesFields(fields)
    case _ => 0
  }

  function BytesAll(vs: seq<Json>): nat
    decreases vs, 1
  {
    if vs == [] then 0 else BytesAll(vs[..|vs| - 1]) + Bytes(vs[|vs| - 1])
  }

  function BytesFields(fields: seq<Field>): nat
    decreases fields, 1
  {
    if fields == [] then 0 else BytesFields(fields[..|fields| - 1]) + Bytes(fields[|fields| - 1].value)
  }

  lemma {:induction false} FieldsWeighAsValues(fields: seq<Field>)
    ensures NodesFields(fields) == NodesAll(Values(fields))
    ensures BytesFields(fields) == BytesAll(Values(fields))
    decreases |fields|
  {
    if fields != [] {
      var n := |fields| - 1;
      assert Values(fields)[..n] == Values(fields[..n]);
      FieldsWeighAsValues(fields[..n]);
    }
  }

  lemma {:induction false} WeightAppend(a: seq<Json>, b: seq<Json>)
    ensures NodesAll(a + b) == NodesAll(a) + NodesAll(b)
    ensures BytesAll(a + b) == BytesAll(a) + BytesAll(b)
    decreases |b|
  {
    if b == [] {
      assert a + b == a;
    } else {
      var n := |b| - 1;
      assert (a + b)[..|a + b| - 1] == a + b[..n];
      WeightAppend(a, b[..n]);
    }
  }

  // The leftmost leaf is weighed last, and nothing is checked after its payload.
  function LastPayload(v: Json): nat
    decreases v
  {
    match v
    case Array(items, _) => if items == [] then Payload(v) else LastPayload(items[0])
    case Object(fields) => if fields == [] then Payload(v) else LastPayload(fields[0].value)
    case _ => Payload(v)
  }

  lemma {:induction false} LastPayloadWithin(v: Json)
    ensures LastPayload(v) <= Bytes(v)
    decreases v
  {
    if v.Array? && v.items != [] {
      LastPayloadWithin(v.items[0]);
      FirstWithin(v.items);
    } else if v.Object? && v.fields != [] {
      LastPayloadWithin(v.fields[0].value);
      FieldsWeighAsValues(v.fields);
      FirstWithin(Values(v.fields));
    }
  }

  lemma {:induction false} FirstWithin(vs: seq<Json>)
    requires vs != []
    ensures Bytes(vs[0]) <= BytesAll(vs)
    decreases |vs|
  {
    if |vs| > 1 {
      FirstWithin(vs[..|vs| - 1]);
    }
  }

  predicate TooHeavy(v: Json) {
    Nodes(v) > MAX_ENTRIES || Bytes(v) - LastPayload(v) > MAX_BYTES || Bytes(v) > USIZE_MAX
  }

  /**
   The estimate: the exact weight, refused when the tree has too many nodes or is too heavy before its last payload.
   */
  function Estimate(v: Json): Option<Footprint> {
    if TooHeavy(v) then None else Some(Footprint(Bytes(v), Nodes(v)))
  }

  /** An accepted value outweighs the byte limit exactly when its last payload alone carries it past. */
  lemma {:induction false} AcceptedBeyondLimit(v: Json)
    ensures Estimate(v).Some? && Estimate(v).value.bytes > MAX_BYTES <==>
            && Nodes(v) <= MAX_ENTRIES && Bytes(v) <= USIZE_MAX
            && Bytes(v) - LastPayload(v) <= MAX_BYTES < Bytes(v)
  {
  }

  // A long enough text is such a value.
  lemma {:induction false} LongText(bytes: nat)
    requires MAX_BYTES < bytes <= USIZE_MAX - 1000
    ensures Estimate(Text(bytes)).Some? && Estimate(Text(bytes)).value.bytes > MAX_BYTES
  {
    AcceptedBeyondLimit(Text(bytes));
  }

  // ---------------------------------------------------------------- what a weight is made of

  // 96 a node; 24 an array and 32 a slot of it; 64 a member of an object; and the characters of texts and keys.
  function Heft(v: Json): nat
    decreases v, 0
  {
    match v
    case Text(capacity) => 96 + capacity
    case Array(items, slots) => 96 + 24 + 32 * slots + HeftItems(items)
    case Object(fields) => 96 + HeftFields(fields)
    case _ => 96
  }

  function HeftItems(vs: seq<Json>): nat
    decreases vs, 1
  {
    if vs == [] then 0 else HeftItems(vs[..|vs| - 1]) + Heft(vs[|vs| - 1])
  }

  function HeftFields(fields: seq<Field>): nat
    decreases fields, 1
  {
    if fields == [] then 0
    else HeftFields(fields[..|fields| - 1]) + 64 + fields[|fields| - 1].keyCapacity + Heft(fields[|fields| - 1].value)
  }

  lemma {:induction false} WeightExactly(v: Json)
    ensures Bytes(v) == Heft(v)
    decreases v, 0
  {
    match v {
      case Array(items, _) => WeightOfItems(items);
      case Object(fields) => WeightOfFields(fields);
      case _ =>
    }
  }

  lemma {:induction false} WeightOfItems(vs: seq<Json>)
    ensures BytesAll(vs) == HeftItems(vs)
    decreases vs, 1
  {
    if vs != [] {
      WeightOfItems(vs[..|vs| - 1]);
      WeightExactly(vs[|vs| - 1]);
    }
  }

  lemma {:induction false} WeightOfFields(fields: seq<Field>)
    ensures BytesFields(fields) + |fields| * MAP_ENTRY_OVERHEAD + KeyBytes(fields) == HeftFields(fields)
    decreases fields, 1
  {
    if fields != [] {
      WeightOfFields(fields[..|fields| - 1]);
      WeightExactly(fields[|fields| - 1].value);
    }
  }

  // The first leaf, which is weighed last.
  function FirstLeaf(v: Json): Json
    decreases v
  {
    match v
    case Array(items, _) => if items == [] then v else FirstLeaf(items[0])
    case Object(fields) => if fields == [] then v else FirstLeaf(fields[0].value)
    case _ => v
  }

  lemma {:induction false} FirstLeafPays(v: Json)
    ensures LastPayload(v) == Heft(FirstLeaf(v)) - 96
    decreases v
  {
    match v {
      case Array(items, _) =>
        if items != [] {
          FirstLeafPays(items[0]);
        }
      case Object(fields) =>
        if fields != [] {
          FirstLeafPays(fields[0].value);
        }
      case _ =>
    }
  }

  // 64 Ki nodes and 64 MiB are the most, and what the first leaf holds is added unchecked.
  predicate Acceptable(v: Json) {
    Nodes(v) <= 65_536 && Heft(v) <= 0xFFFF_FFFF_FFFF_FFFF && Heft(v) + 96 <= 67_108_864 + Heft(FirstLeaf(v))
  }

  /** A value is accepted within those limits, and then for what it is made of. */
  lemma {:induction false} EstimateExactly(v: Json)
    ensures Estimate(v) == if Acceptable(v) then Some(Footprint(Heft(v), Nodes(v))) else None
  {
    WeightExactly(v);
    FirstLeafPays(v);
  }

  // ---------------------------------------------------------------- the worklist

  // The counted part and the pending part make up the whole; the last payload is at the bottom of the stack.
  ghost predicate Weighing(v: Json, footprint: Footprint, pending: seq<Json>) {
    && footprint.bytes + BytesAll(pending) == Bytes(v)
    && footprint.entries + NodesAll(pending) == Nodes(v)
    && (pending != [] ==> LastPayload(pending[0]) == LastPayload(v))
    && (pending == [] ==> !TooHeavy(v))
  }

  lemma {:induction false} Single(v: Json)
    ensures BytesAll([v]) == Bytes(v) && NodesAll([v]) == Nodes(v)
  {
    assert [v][..0] == [];
  }

  lemma {:induction false} NodeWeighs(v: Json)
    ensures Bytes(v) == VALUE_BYTES + MAP_ENTRY_OVERHEAD + Payload(v) + BytesAll(Children(v))
    ensures Nodes(v) == 1 + NodesAll(Children(v))
    ensures LastPayload(v) == if Children(v) == [] then Payload(v) else LastPayload(Children(v)[0])
  {
    if v.Object? {
      FieldsWeighAsValues(v.fields);
    }
  }

  lemma {:induction false} BottomWithin(pending: seq<Json>)
    requires pending != []
    ensures LastPayload(pending[0]) <= BytesAll(pending)
  {
    LastPayloadWithin(pending[0]);
    FirstWithin(pending);
  }

  // Popping a node and pushing its children moves its own share from the pending side to the counted side.
  lemma {:induction false} Popped(v: Json, footprint: Footprint, rest: seq<Json>, current: Json)
    requires Weighing(v, footprint, rest + [current])
    ensures var counted := footprint.Plus(Record(VALUE_BYTES));
            var pending := rest + Children(current);
            && counted.bytes + Payload(current) + BytesAll(pending) == Bytes(v)
            && counted.entries + NodesAll(pending) == Nodes(v)
            && (if pending != [] then LastPayload(pending[0]) == LastPayload(v) else Payload(current) == LastPayload(v))
            && counted.bytes + LastPayload(v) <= Bytes(v)
            && counted.entries + |rest| + |Children(current)| <= Nodes(v)
  {
    var pending := rest + Children(current);
    WeightAppend(rest, [current]);
    Single(current);
    NodeWeighs(current);
    WeightAppend(rest, Children(current));
    if pending != [] {
      BottomWithin(pending);
    }
  }

  // Each refusal is a refusal of the whole tree; without one the loop carries on.
  lemma {:induction false} Judged(v: Json, footprint: Footprint, rest: seq<Json>, current: Json)
    requires Weighing(v, footprint, rest + [current])
    ensures var counted := footprint.Plus(Record(VALUE_BYTES));
            && (counted.bytes > MAX_BYTES || counted.entries > MAX_ENTRIES ==> TooHeavy(v))
            && (|rest| + |Children(current)| > MAX_ENTRIES ==> TooHeavy(v))
            && (counted.bytes + Payload(current) > USIZE_MAX ==> TooHeavy(v))
            && counted.entries <= Nodes(v)
            && (counted.bytes <= MAX_BYTES && counted.entries <= MAX_ENTRIES
                && counted.bytes + Payload(current) <= USIZE_MAX ==>
                  Weighing(v, Footprint(counted.bytes + Payload(current), counted.entries), rest + Children(current)))
  {
    Popped(v, footprint, rest, current);
  }

  // One round of the worklist.
  method WeighNode(
      ghost v: Json, footprint: Footprint, rest: seq<Json>, current: Json)
      returns (r: Option<(Footprint, seq<Json>)>)
    requires Weighing(v, footprint, rest + [current])
    ensures r.None? ==> TooHeavy(v)
    ensures r.Some? ==> Weighing(v, r.value.0, r.value.1) && footprint.entries < r.value.0.entries <= Nodes(v)
  {
    Judged(v, footprint, rest, current);
    var counted := footprint.CheckedAdd(Record(VALUE_BYTES));
    if counted.None? || counted.value.bytes > MAX_BYTES || counted.value.entries > MAX_ENTRIES {
      return None;
    }
    var children, held := Children(current), Payload(current);
    if |children| > SaturatingSub(MAX_ENTRIES, |rest|) || counted.value.bytes + held > USIZE_MAX {
      return None;
    }
    return Some((Footprint(counted.value.bytes + held, counted.value.entries), rest + children));
  }

  lemma {:induction false} WeighingDone(v: Json, footprint: Footprint)
    requires Weighing(v, footprint, [])
    ensures Estimate(v) == Some(footprint)
  {
  }

  /** The worklist computes exactly the estimate: the tree's weight in any order of visits, or a refusal. */
  method EstimateValue(v: Json) returns (r: Option<Footprint>)
    ensures r == Estimate(v)
    ensures r == if Acceptable(v) then Some(Footprint(Heft(v), Nodes(v))) else None
  {
    EstimateExactly(v);
    var footprint, pending := ZERO, [v];
    Single(v);
    while pending != []
      invariant Weighing(v, footprint, pending)
      decreases Nodes(v) - footprint.entries
    {
      var rest, current := pending[..|pending| - 1], pending[|pending| - 1];
      assert pending == rest + [current];
      var next := WeighNode(v, footprint, rest, current);
      if next.None? {
        return None;
      }
      footprint, pending := next.value.0, next.value.1;
    }
    WeighingDone(v, footprint);
    return Some(footprint);
  }

  /** The size of a value kept under a key, with a record for the key only while nothing is charged for it. */
  method ChargeFor(previous: Footprint, value: Json, keyBytes: nat) returns (charge: Option<Footprint>)
    ensures charge.Some? <==>
            && Keyed(previous, value, keyBytes).Move?
            && Keyed(previous, value, keyBytes).replacement.Fits(Footprint(USIZE_MAX, USIZE_MAX))
    ensures charge.Some? ==> charge.value == Keyed(previous, value, keyBytes).replacement
  {
    charge := EstimateValue(value);
    if charge.Some? && previous.entries == 0 {
      charge := charge.value.CheckedAdd(Record(keyBytes));
    }
  }

  function KeyedCharge(previous: Footprint, estimate: Footprint, keyBytes: nat): Footprint {
    if previous.entries == 0 then estimate.Plus(Record(keyBytes)) else estimate
  }

  // ---------------------------------------------------------------- what a ledger can bear

  // One thing asked of the ledger: a charge in place of another, or one for a value too heavy to be weighed.
  datatype Move = Move(previous: Footprint, replacement: Footprint) | Overweight

  const RECORD := Move(ZERO, Record(0))
  const UNRECORD := Move(Record(0), ZERO)

  function Moved(total: Footprint, m: Move): Footprint
    requires m.Move?
  {
    Footprint(SaturatingSub(total.bytes, m.previous.bytes) + m.replacement.bytes,
              SaturatingSub(total.entries, m.previous.entries) + m.replacement.entries)
  }

  /** The total after a run of moves, if every running total stays within the limit. */
  function Settle(total: Footprint, moves: seq<Move>, limit: Footprint): Option<Footprint> {
    if moves == [] then Some(total)
    else
      var before, m := Settle(total, moves[..|moves| - 1], limit), moves[|moves| - 1];
      if before.Some? && m.Move? && Moved(before.value, m).Fits(limit) then Some(Moved(before.value, m)) else None
  }

  lemma {:induction false} SettleOne(total: Footprint, m: Move, limit: Footprint)
    ensures Settle(total, [m], limit)
            == if m.Move? && Moved(total, m).Fits(limit) then Some(Moved(total, m)) else None
  {
    assert [m][..0] == [];
  }

  lemma {:induction false} SettleAppend(total: Footprint, a: seq<Move>, b: seq<Move>, limit: Footprint)
    ensures Settle(total, a + b, limit)
            == if Settle(total, a, limit).None? then None else Settle(Settle(total, a, limit).value, b, limit)
    decreases |b|
  {
    if b == [] {
      assert a + b == a;
    } else {
      var n := |b| - 1;
      assert (a + b)[..|a + b| - 1] == a + b[..n];
      SettleAppend(total, a, b[..n], limit);
    }
  }

  // Weighing a value in place of another charge, with a record for its key while nothing is charged.
  function Weighed(previous: Footprint, v: Json): Move {
    if Estimate(v).Some? then Move(previous, Estimate(v).value) else Overweight
  }

  function Keyed(previous: Footprint, v: Json, keyBytes: nat): Move {
    if Estimate(v).Some? then Move(previous, KeyedCharge(previous, Estimate(v).value, keyBytes)) else Overweight
  }

  // A field written in place of its key's previous value.
  function FieldMove(m: map<string, Footprint>, f: Field): Move {
    Keyed(Held(m, f.key), f.value, |f.key|)
  }

  function FieldCharged(m: map<string, Footprint>, f: Field): map<string, Footprint> {
    m[f.key := if FieldMove(m, f).Move? then FieldMove(m, f).replacement else ZERO]
  }

  // The charges after a list of fields has been written, and what that asks of the ledger.
  function ChargedAll(m: map<string, Footprint>, fields: seq<Field>): map<string, Footprint> {
    if fields == [] then m else FieldCharged(ChargedAll(m, fields[..|fields| - 1]), fields[|fields| - 1])
  }

  function FieldMoves(m: map<string, Footprint>, fields: seq<Field>): seq<Move> {
    if fields == [] then []
    else
      var before := fields[..|fields| - 1];
      FieldMoves(m, before) + [FieldMove(ChargedAll(m, before), fields[|fields| - 1])]
  }

  // The fields after that: the last value of every key.
  function Merged(m: map<string, Json>, fields: seq<Field>): map<string, Json> {
    if fields == [] then m
    else Merged(m, fields[..|fields| - 1])[fields[|fields| - 1].key := fields[|fields| - 1].value]
  }

  predicate LastWrite(fields: seq<Field>, key: string, i: nat) {
    i < |fields| && fields[i].key == key && forall j :: i < j < |fields| ==> fields[j].key != key
  }

  predicate Unwritten(fields: seq<Field>, key: string) {
    forall i :: 0 <= i < |fields| ==> fields[i].key != key
  }

  /** Merging leaves the last value written to a key, and what was there before where nothing was. */
  lemma {:induction false} MergedExactly(m: map<string, Json>, fields: seq<Field>, key: string)
    ensures if key !in Merged(m, fields) then Unwritten(fields, key) && key !in m
            else || (exists i: nat :: LastWrite(fields, key, i) && Merged(m, fields)[key] == fields[i].value)
                 || (Unwritten(fields, key) && key in m && Merged(m, fields)[key] == m[key])
    decreases |fields|
  {
    if fields != [] {
      var n := |fields| - 1;
      var before := fields[..n];
      MergedExactly(m, before, key);
      assert forall i :: 0 <= i < n ==> before[i] == fields[i];
      if fields[n].key == key {
        assert LastWrite(fields, key, n);
      } else if i: nat :| LastWrite(before, key, i) && Merged(m, before)[key] == before[i].value {
        assert LastWrite(fields, key, i);
      }
    }
  }

  lemma {:induction false} FieldsRefused(
      total: Footprint, m: map<string, Footprint>, fields: seq<Field>, n: nat, limit: Footprint)
    requires n <= |fields| && Settle(total, FieldMoves(m, fields[..n]), limit).None?
    ensures Settle(total, FieldMoves(m, fields), limit).None?
    decreases |fields| - n
  {
    if n < |fields| {
      assert fields[..n + 1][..n] == fields[..n];
      SettleAppend(total, FieldMoves(m, fields[..n]), [FieldMove(ChargedAll(m, fields[..n]), fields[n])], limit);
      FieldsRefused(total, m, fields, n + 1, limit);
    } else {
      assert fields[..n] == fields;
    }
  }

  // ---------------------------------------------------------------- when a key's record is charged

  function Writes(fields: seq<Field>, key: string): nat {
    if fields == [] then 0
    else Writes(fields[..|fields| - 1], key) + if fields[|fields| - 1].key == key then 1 else 0
  }

  predicate AllWeighed(fields: seq<Field>) {
    fields != [] ==> AllWeighed(fields[..|fields| - 1]) && Estimate(fields[|fields| - 1].value).Some?
  }

  // Writing one list and then another is writing both.
  lemma {:induction false} ChargedAppend(m: map<string, Footprint>, a: seq<Field>, b: seq<Field>)
    ensures ChargedAll(m, a + b) == ChargedAll(ChargedAll(m, a), b)
    ensures FieldMoves(m, a + b) == FieldMoves(m, a) + FieldMoves(ChargedAll(m, a), b)
    decreases |b|
  {
    if b == [] {
      assert a + b == a;
    } else {
      var n := |b| - 1;
      assert (a + b)[..|a + b| - 1] == a + b[..n];
      ChargedAppend(m, a, b[..n]);
    }
  }

  lemma {:induction false} MergedAppend(m: map<string, Json>, a: seq<Field>, b: seq<Field>)
    ensures Merged(m, a + b) == Merged(Merged(m, a), b)
    ensures AllWeighed(a) && AllWeighed(b) ==> AllWeighed(a + b)
    decreases |b|
  {
    if b == [] {
      assert a + b == a;
    } else {
      var n := |b| - 1;
      assert (a + b)[..|a + b| - 1] == a + b[..n];
      MergedAppend(m, a, b[..n]);
    }
  }

  // Whatever a ledger has borne could be weighed.
  lemma {:induction false} BorneIsWeighed(
      total: Footprint, m: map<string, Footprint>, fields: seq<Field>, limit: Footprint)
    requires Settle(total, FieldMoves(m, fields), limit).Some?
    ensures AllWeighed(fields)
    decreases |fields|
  {
    if fields != [] {
      var before := fields[..|fields| - 1];
      SettleAppend(total, FieldMoves(m, before), [FieldMove(ChargedAll(m, before), fields[|fields| - 1])], limit);
      if Settle(total, FieldMoves(m, before), limit).Some? {
        SettleOne(Settle(total, FieldMoves(m, before), limit).value,
                  FieldMove(ChargedAll(m, before), fields[|fields| - 1]), limit);
        BorneIsWeighed(total, m, before, limit);
      }
    }
  }

  // All the fields of a stream's usage events, in order.
  function Flat(frames: seq<seq<Field>>): seq<Field> {
    if frames == [] then [] else Flat(frames[..|frames| - 1]) + frames[|frames| - 1]
  }

  /** A key is charged for its last value, and for its record exactly when it was written once. */
  lemma {:induction false} KeyCharges(fields: seq<Field>, key: string)
    requires AllWeighed(fields)
    ensures Writes(fields, key) > 0 <==> key in ChargedAll(map[], fields)
    ensures Writes(fields, key) > 0 <==> key in Merged(map[], fields)
    ensures Writes(fields, key) > 0 ==>
              && Estimate(Merged(map[], fields)[key]).Some?
              && ChargedAll(map[], fields)[key]
                 == Estimate(Merged(map[], fields)[key]).value.Plus(
                      if Writes(fields, key) == 1 then Record(|key|) else ZERO)
    decreases |fields|
  {
    if fields != [] {
      KeyCharges(fields[..|fields| - 1], key);
    }
  }

  // The same field twice, as a stream's first and last usage events send it: the second write loses the record.
  lemma {:induction false} RecordLost(f: Field)
    requires Estimate(f.value).Some?
    ensures ChargedAll(map[], [f]) == map[f.key := Estimate(f.value).value.Plus(Record(|f.key|))]
    ensures ChargedAll(map[], [f, f]) == map[f.key := Estimate(f.value).value]
  {
    assert [f][..0] == [] && [f, f][..1] == [f];
  }

  // A retained key is charged for its value and its record.
  ghost predicate RecordCharged(fields: seq<Field>, key: string)
    requires key in ChargedAll(map[], fields)
  {
    && key in Merged(map[], fields) && Estimate(Merged(map[], fields)[key]).Some?
    && ChargedAll(map[], fields)[key] == Estimate(Merged(map[], fields)[key]).value.Plus(Record(|key|))
  }

  /** Every record is charged exactly when no key is written twice. */
  lemma {:induction false} RecordsChargedExactly(fields: seq<Field>)
    requires AllWeighed(fields)
    ensures (forall key :: key in ChargedAll(map[], fields) ==> RecordCharged(fields, key)) <==>
            (forall key :: key in ChargedAll(map[], fields) ==> Writes(fields, key) == 1)
  {
    forall key | key in ChargedAll(map[], fields) ensures RecordCharged(fields, key) <==> Writes(fields, key) == 1 {
      KeyCharges(fields, key);
    }
  }

  // One record for each mark in two sets of choices.
  function Marks(known: set<nat>, finished: set<nat>): nat {
    |known| + |finished|
  }
}
