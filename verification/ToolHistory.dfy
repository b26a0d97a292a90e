/**
 Which tool histories are sound. A conversation is the sequence of its items: an assistant message is its turn
 followed by its calls, a tool message is the answer it gives, and any other message stands for itself.
 */
module ToolHistory {
  import opened Common
  import opened ToolIds

  datatype Mapping = Absent | Unreadable | Bindings(bindings: seq<WireId>)

  // Missing strings are empty. `rejected` says that the target's own rules on signatures refuse the call.
  datatype ToolCall = ToolCall(id: string, name: string, argumentsParse: bool, mapping: Mapping, rejected: bool)

  datatype Item =
    | Turn
    | Call(call: ToolCall)
    | Answer(id: Option<string>, name: Option<string>)
    | Other
    | Malformed            // `tool_calls` is neither a list nor null

  predicate IsCall(e: Item, id: string) {
    e.Call? && e.call.id == id
  }

  predicate IsAnswer(e: Item, id: string) {
    e.Answer? && e.id == Some(id)
  }

  predicate Bound(c: ToolCall) {
    Owned(c.id) || !c.mapping.Absent?
  }

  // ---------------------------------------------------------------- what a sound history is

  // The call at `i` has its answer before `j`.
  ghost predicate AnsweredBy(h: seq<Item>, i: nat, j: nat)
    requires i < j <= |h| && h[i].Call?
  {
    exists k :: i < k < j && IsAnswer(h[k], h[i].call.id)
  }

  // The call at `i` is `id`'s and still has no answer at `j`.
  ghost predicate Awaits(h: seq<Item>, i: nat, j: nat, id: string)
    requires i < j <= |h|
  {
    IsCall(h[i], id) && !AnsweredBy(h, i, j)
  }

  ghost predicate AllAnswered(h: seq<Item>, j: nat)
    requires j <= |h|
  {
    forall i :: 0 <= i < j && h[i].Call? ==> AnsweredBy(h, i, j)
  }

  ghost predicate SoundAt(h: seq<Item>, j: nat)
    requires j < |h|
  {
    match h[j]
    case Turn => AllAnswered(h, j)
    case Call(c) =>
      && c.id != "" && c.name != "" && c.argumentsParse
      && (forall i :: 0 <= i < j ==> !Awaits(h, i, j, c.id))
      && ("call_ls_" <= c.id || c.mapping != Absent ==> forall i :: 0 <= i < j ==> !IsCall(h[i], c.id))
    case Answer(id, _) => id.Some? && exists i :: 0 <= i < j && Awaits(h, i, j, id.value)
    case Other => true
    case Malformed => false
  }

  /**
   Every call is answered before the next turn and before the end, no answer is unmatched, no id is pending twice, and
   no owned or wire-mapped call reuses an id; besides, calls and answers are well formed.
   */
  ghost predicate Sound(h: seq<Item>) {
    (forall j :: 0 <= j < |h| ==> SoundAt(h, j)) && AllAnswered(h, |h|)
  }

  // ---------------------------------------------------------------- the automaton

  datatype Marks = Marks(pending: set<string>, seen: set<string>)

  predicate Accepts(m: Marks, e: Item) {
    match e
    case Turn => m.pending == {}
    case Call(c) =>
      && c.id != "" && c.name != "" && c.argumentsParse && c.id !in m.pending
      && !(c.id in m.seen && Bound(c))
    case Answer(id, _) => id.Some? && id.value in m.pending
    case Other => true
    case Malformed => false
  }

  function Marked(m: Marks, e: Item): Marks {
    match e
    case Call(c) => Marks(m.pending + {c.id}, m.seen + {c.id})
    case Answer(id, _) => if id.Some? then m.(pending := m.pending - {id.value}) else m
    case _ => m
  }

  function MarksOf(h: seq<Item>): Marks {
    if h == [] then Marks({}, {}) else Marked(MarksOf(h[..|h| - 1]), h[|h| - 1])
  }

  predicate Passes(h: seq<Item>) {
    h != [] ==> Passes(h[..|h| - 1]) && Accepts(MarksOf(h[..|h| - 1]), h[|h| - 1])
  }

  // ---------------------------------------------------------------- they are the same

  lemma {:induction false} SeenMeaning(h: seq<Item>, id: string)
    ensures id in MarksOf(h).seen <==> exists i :: 0 <= i < |h| && IsCall(h[i], id)
    decreases |h|
  {
    if h != [] {
      var n := |h| - 1;
      SeenMeaning(h[..n], id);
      assert forall i :: 0 <= i < n ==> h[..n][i] == h[i];
      assert IsCall(h[n], id) ==> exists i :: 0 <= i < |h| && IsCall(h[i], id);
    }
  }

  ghost predicate Pending(h: seq<Item>, j: nat, id: string)
    requires j <= |h|
  {
    exists i :: 0 <= i < j && Awaits(h, i, j, id)
  }

  lemma {:induction false} AnsweredStep(h: seq<Item>, i: nat, n: nat)
    requires i < n < |h| && h[i].Call?
    ensures AnsweredBy(h, i, n + 1) <==> AnsweredBy(h, i, n) || IsAnswer(h[n], h[i].call.id)
  {
  }

  lemma {:induction false} PendingStep(h: seq<Item>, n: nat, id: string)
    requires n < |h|
    ensures Pending(h, n + 1, id) <==> IsCall(h[n], id) || (Pending(h, n, id) && !IsAnswer(h[n], id))
  {
    if IsCall(h[n], id) {
      assert Awaits(h, n, n + 1, id);
    }
    if Pending(h, n, id) && !IsAnswer(h[n], id) {
      var i :| 0 <= i < n && Awaits(h, i, n, id);
      AnsweredStep(h, i, n);
      assert Awaits(h, i, n + 1, id);
    }
    if Pending(h, n + 1, id) && !IsCall(h[n], id) {
      var i :| 0 <= i < n + 1 && Awaits(h, i, n + 1, id);
      AnsweredStep(h, i, n);
      assert Awaits(h, i, n, id);
    }
  }

  lemma {:induction false} PendingMeaning(h: seq<Item>, j: nat, id: string)
    requires j <= |h|
    ensures id in MarksOf(h[..j]).pending <==> Pending(h, j, id)
    decreases j
  {
    if j > 0 {
      PendingMeaning(h, j - 1, id);
      PendingStep(h, j - 1, id);
      assert h[..j][..j - 1] == h[..j - 1];
    }
  }

  lemma {:induction false} NonePending(h: seq<Item>, j: nat)
    requires j <= |h|
    ensures MarksOf(h[..j]).pending == {} <==> AllAnswered(h, j)
  {
    if MarksOf(h[..j]).pending == {} {
      forall i | 0 <= i < j && h[i].Call? ensures AnsweredBy(h, i, j) {
        PendingMeaning(h, j, h[i].call.id);
        assert !Awaits(h, i, j, h[i].call.id);
      }
    } else {
      var id :| id in MarksOf(h[..j]).pending;
      PendingMeaning(h, j, id);
    }
  }

  lemma {:induction false} AcceptsMeaning(h: seq<Item>, j: nat)
    requires j < |h|
    ensures SoundAt(h, j) <==> Accepts(MarksOf(h[..j]), h[j])
  {
    match h[j]
    case Turn => NonePending(h, j);
    case Call(c) =>
      PendingMeaning(h, j, c.id);
      SeenMeaning(h[..j], c.id);
      assert forall i :: 0 <= i < j ==> h[..j][i] == h[i];
    case Answer(id, _) =>
      if id.Some? {
        PendingMeaning(h, j, id.value);
      }
    case _ =>
  }

  lemma {:induction false} PassesMeaning(h: seq<Item>, n: nat)
    requires n <= |h|
    ensures Passes(h[..n]) <==> forall j :: 0 <= j < n ==> SoundAt(h, j)
    decreases n
  {
    if n > 0 {
      PassesMeaning(h, n - 1);
      assert h[..n][..n - 1] == h[..n - 1];
      AcceptsMeaning(h, n - 1);
    }
  }

  /** The automaton accepts exactly the sound histories. */
  lemma {:induction false} AcceptedExactly(h: seq<Item>)
    ensures Passes(h) && MarksOf(h).pending == {} <==> Sound(h)
  {
    assert h[..|h|] == h;
    PassesMeaning(h, |h|);
    NonePending(h, |h|);
  }

  lemma {:induction false} PassesPrefix(h: seq<Item>, k: nat)
    requires k <= |h|
    ensures Passes(h) ==> Passes(h[..k])
    decreases |h|
  {
    if k == |h| {
      assert h[..k] == h;
    } else {
      PassesPrefix(h[..|h| - 1], k);
      assert h[..|h| - 1][..k] == h[..k];
    }
  }

  /** The checking loop. */
  method ValidateHistory(h: seq<Item>) returns (ok: bool)
    ensures ok <==> Sound(h)
  {
    AcceptedExactly(h);
    var pending: set<string>, seen: set<string> := {}, {};
    for k := 0 to |h|
      invariant Passes(h[..k]) && MarksOf(h[..k]) == Marks(pending, seen)
    {
      assert h[..k + 1][..k] == h[..k];
      ghost var rejected := !Accepts(Marks(pending, seen), h[k]);
      if rejected {
        NotPassing(h, k);
      }
      match h[k] {
        case Malformed => return false;
        case Other =>
        case Turn =>
          if pending != {} {
            return false;
          }
        case Call(c) =>
          if c.id == "" || c.id in pending || (c.id in seen && Bound(c)) || c.name == "" || !c.argumentsParse {
            return false;
          }
          seen := seen + {c.id};
          pending := pending + {c.id};
        case Answer(id, _) =>
          if id.None? || id.value !in pending {
            return false;
          }
          pending := pending - {id.value};
      }
    }
    assert h[..|h|] == h;
    return pending == {};
  }

  lemma {:induction false} NotPassing(h: seq<Item>, k: nat)
    requires k < |h| && !Accepts(MarksOf(h[..k]), h[k])
    ensures !Passes(h)
  {
    PassesPrefix(h, k + 1);
    assert h[..k + 1][..k] == h[..k];
  }

  function Calls(h: seq<Item>): nat {
    if h == [] then 0 else Calls(h[..|h| - 1]) + if h[|h| - 1].Call? then 1 else 0
  }

  function Answers(h: seq<Item>): nat {
    if h == [] then 0 else Answers(h[..|h| - 1]) + if h[|h| - 1].Answer? then 1 else 0
  }

  lemma {:induction false} PendingCounts(h: seq<Item>)
    requires Passes(h)
    ensures Calls(h) == Answers(h) + |MarksOf(h).pending|
    decreases |h|
  {
    if h != [] {
      PendingCounts(h[..|h| - 1]);
    }
  }

  /** Sound histories have as many answers as calls. */
  lemma {:induction false} EqualCounts(h: seq<Item>)
    requires Sound(h)
    ensures Calls(h) == Answers(h)
  {
    AcceptedExactly(h);
    PendingCounts(h);
  }
}
