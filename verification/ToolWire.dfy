/** The rewritten history is validated again, by the ids it now goes under: when is it still sound, and what is sent? */
module ToolWire {
  import opened Common
  import opened ToolIds
  import opened ToolHistory
  import opened ToolReplay
  import opened ToolOrder

  // The mappings stay behind; calls and answers go out under the shown ids.
  function OnWire(e: Item, r: Ready): Item {
    if e.Call? && r.ReadyCall? then Call(e.call.(id := Shown(r.identity), mapping := Mapping.Absent))
    else if e.Answer? && r.ReadyAnswer? then Answer(Some(Shown(r.identity)), e.name)
    else e
  }

  function Wired(h: seq<Item>, out: seq<Ready>): (w: seq<Item>)
    requires |h| == |out|
    ensures |w| == |h| && forall i :: 0 <= i < |h| ==> w[i] == OnWire(h[i], out[i])
  {
    seq(|h|, i requires 0 <= i < |h| => OnWire(h[i], out[i]))
  }

  // What a call goes out under, by the call alone.
  function Goes(h: seq<Item>, t: Target, mints: nat -> string, i: nat): string
    requires i < |h| && h[i].Call?
  {
    ShownAs(h[i].call, t, mints(Calls(h[..i])))
  }

  // Two calls may go out under one id only when the first was answered in between and the id is not an owned one.
  ghost predicate Apart(h: seq<Item>, t: Target, mints: nat -> string, i: nat, j: nat)
    requires i < j < |h| && h[i].Call? && h[j].Call?
  {
    Goes(h, t, mints, i) == Goes(h, t, mints, j) ==> AnsweredBy(h, i, j) && !Owned(Goes(h, t, mints, j))
  }

  ghost predicate ClearTo(h: seq<Item>, t: Target, mints: nat -> string, n: nat)
    requires n <= |h|
  {
    forall j :: 0 <= j < n && h[j].Call? ==>
      Goes(h, t, mints, j) != "" && forall i :: 0 <= i < j && h[i].Call? ==> Apart(h, t, mints, i, j)
  }

  // What is needed of a rewriting: it is one, and the calls go out under those ids.
  ghost predicate Sends(h: seq<Item>, out: seq<Ready>, t: Target, mints: nat -> string) {
    Paired(h) && Identified(h, out, t) && Shows(h, out, t, mints)
  }

  // ---------------------------------------------------------------- answers reach their calls

  lemma {:induction false} FirstAnswer(h: seq<Item>, i: nat, k: nat) returns (f: nat)
    requires i < k < |h| && h[i].Call? && IsAnswer(h[k], h[i].call.id)
    ensures i < f <= k && IsAnswer(h[f], h[i].call.id) && Awaits(h, i, f, h[i].call.id)
    decreases k
  {
    if AnsweredBy(h, i, k) {
      var j :| i < j < k && IsAnswer(h[j], h[i].call.id);
      f := FirstAnswer(h, i, j);
    } else {
      f := k;
    }
  }

  /** What is answered stays answered. */
  lemma {:induction false} AnswerArrives(h: seq<Item>, out: seq<Ready>, t: Target, mints: nat -> string, i: nat, j: nat)
    requires Sends(h, out, t, mints) && i < j <= |h| && h[i].Call? && AnsweredBy(h, i, j)
    ensures AnsweredBy(Wired(h, out), i, j)
  {
    var k :| i < k < j && IsAnswer(h[k], h[i].call.id);
    var f := FirstAnswer(h, i, k);
    assert AnswerReady(h, out, f) && CallReady(h, out, t, i);
    assert IsAnswer(Wired(h, out)[f], Wired(h, out)[i].call.id);
  }

  // An answer goes out under the id of the call it is for.
  lemma {:induction false} AnswerOwner(h: seq<Item>, out: seq<Ready>, t: Target, mints: nat -> string, k: nat)
      returns (a: nat)
    requires Sends(h, out, t, mints) && k < |h| && h[k].Answer?
    ensures h[k].id.Some? && a < k && Awaits(h, a, k, h[k].id.value)
    ensures Wired(h, out)[k] == Answer(Some(Goes(h, t, mints, a)), h[k].name)
  {
    assert SoundAt(h, k) && AnswerReady(h, out, k);
    a :| 0 <= a < k && Awaits(h, a, k, h[k].id.value);
  }

  lemma {:induction false} OneIdApart(h: seq<Item>, t: Target, mints: nat -> string, n: nat, i: nat, a: nat)
    requires n <= |h| && ClearTo(h, t, mints, n) && i < n && a < n && h[i].Call? && h[a].Call?
    requires Goes(h, t, mints, i) == Goes(h, t, mints, a)
    ensures i < a ==> AnsweredBy(h, i, a)
    ensures a < i ==> AnsweredBy(h, a, i)
  {
    if i < a {
      assert Apart(h, t, mints, i, a);
    } else if a < i {
      assert Apart(h, t, mints, a, i);
    }
  }

  lemma {:induction false} StillAwaits(h: seq<Item>, a: nat, i: nat, k: nat)
    requires a < k <= |h| && i < k && h[a].Call? && !AnsweredBy(h, a, k)
    ensures a < i ==> !AnsweredBy(h, a, i)
  {
  }

  /** While ids are clear, nothing else is answered. */
  lemma {:induction false} AnswerWasSent(h: seq<Item>, out: seq<Ready>, t: Target, mints: nat -> string, i: nat, j: nat)
    requires Sends(h, out, t, mints) && i < j <= |h| && h[i].Call? && ClearTo(h, t, mints, j)
    requires AnsweredBy(Wired(h, out), i, j)
    ensures AnsweredBy(h, i, j)
  {
    var w := Wired(h, out);
    var k :| i < k < j && IsAnswer(w[k], w[i].call.id);
    assert CallReady(h, out, t, i) && h[k].Answer?;
    var a := AnswerOwner(h, out, t, mints, k);
    OneIdApart(h, t, mints, j, i, a);
    StillAwaits(h, a, i, k);
    assert a == i ==> IsAnswer(h[k], h[i].call.id);
  }

  // ---------------------------------------------------------------- soundness, item by item

  lemma {:induction false} SentCall(h: seq<Item>, out: seq<Ready>, t: Target, mints: nat -> string, i: nat)
    requires Sends(h, out, t, mints) && i < |h|
    ensures Wired(h, out)[i].Call? <==> h[i].Call?
    ensures h[i].Call? ==>
              && Wired(h, out)[i].call.id == Goes(h, t, mints, i) && Wired(h, out)[i].call.name == h[i].call.name
              && (Bound(Wired(h, out)[i].call) <==> Owned(Goes(h, t, mints, i)))
              && (Wired(h, out)[i].call.argumentsParse <==> h[i].call.argumentsParse)
  {
    assert CallReady(h, out, t, i);
  }

  lemma {:induction false} CallSentSound(h: seq<Item>, out: seq<Ready>, t: Target, mints: nat -> string, j: nat)
    requires Sends(h, out, t, mints) && j < |h| && h[j].Call? && ClearTo(h, t, mints, j)
    ensures SoundAt(Wired(h, out), j) <==> ClearTo(h, t, mints, j + 1)
  {
    var w := Wired(h, out);
    assert SoundAt(h, j);
    SentCall(h, out, t, mints, j);
    forall i | 0 <= i < j && h[i].Call?
      ensures w[i].Call? && w[i].call.id == Goes(h, t, mints, i)
      ensures AnsweredBy(w, i, j) <==> AnsweredBy(h, i, j)
    {
      SentCall(h, out, t, mints, i);
      Answered(h, out, t, mints, i, j);
    }
    forall i | 0 <= i < j && !h[i].Call? ensures !w[i].Call? {
      SentCall(h, out, t, mints, i);
    }
    if SoundAt(w, j) {
      forall i | 0 <= i < j && h[i].Call? ensures Apart(h, t, mints, i, j) {
        assert !Awaits(w, i, j, w[j].call.id);
        assert Bound(w[j].call) ==> !IsCall(w[i], w[j].call.id);
      }
    }
    if ClearTo(h, t, mints, j + 1) {
      forall i | 0 <= i < j
        ensures !Awaits(w, i, j, w[j].call.id) && (Bound(w[j].call) ==> !IsCall(w[i], w[j].call.id))
      {
        if h[i].Call? {
          assert Apart(h, t, mints, i, j);
        }
      }
    }
  }

  lemma {:induction false} Answered(h: seq<Item>, out: seq<Ready>, t: Target, mints: nat -> string, i: nat, j: nat)
    requires Sends(h, out, t, mints) && i < j <= |h| && h[i].Call? && ClearTo(h, t, mints, j)
    ensures Wired(h, out)[i].Call? && (AnsweredBy(Wired(h, out), i, j) <==> AnsweredBy(h, i, j))
  {
    SentCall(h, out, t, mints, i);
    if AnsweredBy(h, i, j) {
      AnswerArrives(h, out, t, mints, i, j);
    }
    if AnsweredBy(Wired(h, out), i, j) {
      AnswerWasSent(h, out, t, mints, i, j);
    }
  }

  lemma {:induction false} AllAnsweredSent(h: seq<Item>, out: seq<Ready>, t: Target, mints: nat -> string, j: nat)
    requires Sends(h, out, t, mints) && j <= |h| && ClearTo(h, t, mints, j)
    ensures AllAnswered(Wired(h, out), j) <==> AllAnswered(h, j)
  {
    forall i | 0 <= i < j
      ensures Wired(h, out)[i].Call? <==> h[i].Call?
      ensures h[i].Call? ==> (AnsweredBy(Wired(h, out), i, j) <==> AnsweredBy(h, i, j))
    {
      SentCall(h, out, t, mints, i);
      if h[i].Call? {
        Answered(h, out, t, mints, i, j);
      }
    }
  }

  lemma {:induction false} OtherSentSound(h: seq<Item>, out: seq<Ready>, t: Target, mints: nat -> string, j: nat)
    requires Sends(h, out, t, mints) && j < |h| && !h[j].Call? && ClearTo(h, t, mints, j)
    ensures SoundAt(Wired(h, out), j) <==> SoundAt(h, j)
  {
    match h[j]
    case Turn => AllAnsweredSent(h, out, t, mints, j);
    case Answer(_, _) =>
      var a := AnswerOwner(h, out, t, mints, j);
      Answered(h, out, t, mints, a, j);
      SentCall(h, out, t, mints, a);
      assert Awaits(Wired(h, out), a, j, Goes(h, t, mints, a));
    case _ =>
  }

  // ---------------------------------------------------------------- the theorem

  lemma {:induction false} ClearStep(h: seq<Item>, t: Target, mints: nat -> string, n: nat)
    requires n < |h| && !h[n].Call? && ClearTo(h, t, mints, n)
    ensures ClearTo(h, t, mints, n + 1)
  {
  }

  lemma {:induction false} SoundToClear(h: seq<Item>, out: seq<Ready>, t: Target, mints: nat -> string, n: nat)
    requires Sends(h, out, t, mints) && n <= |h| && Paired(Wired(h, out))
    ensures ClearTo(h, t, mints, n)
    decreases n
  {
    if n > 0 {
      SoundToClear(h, out, t, mints, n - 1);
      if h[n - 1].Call? {
        SentCall(h, out, t, mints, n - 1);
        assert SoundAt(Wired(h, out), n - 1);
        CallSentSound(h, out, t, mints, n - 1);
      } else {
        ClearStep(h, t, mints, n - 1);
      }
    }
  }

  // Calls and answers are sound as sent wherever they were, while ids are clear.
  lemma {:induction false} SentSound(h: seq<Item>, out: seq<Ready>, t: Target, mints: nat -> string, j: nat)
    requires Sends(h, out, t, mints) && ClearTo(h, t, mints, |h|) && j < |h| && SoundAt(h, j)
    ensures SoundAt(Wired(h, out), j)
  {
    if h[j].Call? {
      CallSentSound(h, out, t, mints, j);
    } else {
      OtherSentSound(h, out, t, mints, j);
    }
  }

  lemma {:induction false} StraightSound(h: seq<Item>, out: seq<Ready>, t: Target, mints: nat -> string)
    requires Sound(h) && Sends(h, out, t, mints)
    ensures Sound(Wired(h, out)) <==> ClearTo(h, t, mints, |h|)
  {
    if Sound(Wired(h, out)) {
      SoundToClear(h, out, t, mints, |h|);
    }
    if ClearTo(h, t, mints, |h|) {
      AllAnsweredSent(h, out, t, mints, |h|);
      forall j | 0 <= j < |h| ensures SoundAt(Wired(h, out), j) {
        SentSound(h, out, t, mints, j);
      }
    }
  }

  lemma {:induction false} JoinedAllAnswered(h: seq<Item>, j: nat)
    requires j <= |h|
    ensures AllAnswered(Joined(h), j) <==> AllAnswered(h, j)
  {
    forall i | 0 <= i < j
      ensures Joined(h)[i].Call? <==> h[i].Call?
      ensures h[i].Call? ==> (AnsweredBy(Joined(h), i, j) <==> AnsweredBy(h, i, j))
    {
      JoinedAt(h, i);
      JoinedAwaits(h, i, j, "");
    }
  }

  // Joining joins the same items before and after.
  lemma {:induction false} JoinedAlike(h: seq<Item>, out: seq<Ready>, t: Target, mints: nat -> string, j: nat)
    requires Sends(h, out, t, mints) && j < |h|
    ensures Wired(h, out)[j].Turn? <==> h[j].Turn?
    ensures Joined(Wired(h, out))[j].Turn? <==> Joined(h)[j].Turn?
  {
    JoinedAt(h, j);
    JoinedAt(Wired(h, out), j);
    SentCall(h, out, t, mints, j);
    if j > 0 {
      SentCall(h, out, t, mints, j - 1);
    }
  }

  lemma {:induction false} JoinedSentSound(h: seq<Item>, out: seq<Ready>, t: Target, mints: nat -> string, j: nat)
    requires Sends(h, out, t, mints) && ClearTo(h, t, mints, |h|) && j < |h| && SoundAt(Joined(h), j)
    ensures SoundAt(Joined(Wired(h, out)), j)
  {
    JoinedAlike(h, out, t, mints, j);
    JoinedSoundAt(Wired(h, out), j);
    if h[j].Turn? {
      JoinedAt(Wired(h, out), j);
      JoinedAt(h, j);
      AllAnsweredSent(h, out, t, mints, j);
      JoinedAllAnswered(h, j);
      JoinedAllAnswered(Wired(h, out), j);
    } else {
      assert SoundAt(h, j);
      SentSound(h, out, t, mints, j);
    }
  }

  lemma {:induction false} JoinedSentAlike(h: seq<Item>, out: seq<Ready>, t: Target, mints: nat -> string)
    requires Sound(Joined(h)) && Sends(h, out, t, mints)
    ensures Sound(Joined(Wired(h, out))) <==> ClearTo(h, t, mints, |h|)
  {
    JoinedSound(Wired(h, out));
    if Sound(Joined(Wired(h, out))) {
      SoundToClear(h, out, t, mints, |h|);
    }
    if ClearTo(h, t, mints, |h|) {
      AllAnsweredSent(h, out, t, mints, |h|);
      JoinedAllAnswered(h, |h|);
      JoinedAllAnswered(Wired(h, out), |h|);
      forall j | 0 <= j < |h| ensures SoundAt(Joined(Wired(h, out)), j) {
        JoinedSentSound(h, out, t, mints, j);
      }
    }
  }

  /**
   A sound history, its turns joined or not, is still sound by the ids it goes out under, exactly when every such id is
   there and no two calls go out under one unless the first was answered in between and the id is not an owned one.
   */
  lemma {:induction false} SoundAsSent(h: seq<Item>, out: seq<Ready>, t: Target, mints: nat -> string, joins: bool)
    requires Sound(Checked(h, joins)) && Identified(h, out, t) && Shows(h, out, t, mints)
    ensures Sound(Checked(Wired(h, out), joins)) <==> ClearTo(h, t, mints, |h|)
  {
    JoinedSound(h);
    if joins {
      JoinedSentAlike(h, out, t, mints);
    } else {
      StraightSound(h, out, t, mints);
    }
  }

  /** Calls of clients that never saw an owned id always meet the condition. */
  lemma {:induction false} PlainIsClear(h: seq<Item>, t: Target, mints: nat -> string)
    requires Paired(h) && AllPlain(h) && FreshIds(h, mints)
    ensures ClearTo(h, t, mints, |h|)
  {
    forall j | 0 <= j < |h| && h[j].Call?
      ensures Goes(h, t, mints, j) != "" && forall i :: 0 <= i < j && h[i].Call? ==> Apart(h, t, mints, i, j)
    {
      assert SoundAt(h, j) && Owned(mints(Calls(h[..j])));
      forall i | 0 <= i < j && h[i].Call? ensures Apart(h, t, mints, i, j) {
        assert SoundAt(h, i);
        CallsGrow(h, i, j);
        assert !Awaits(h, i, j, h[j].call.id);
      }
    }
  }

  lemma {:induction false} PlainIsRewritable(h: seq<Item>, t: Target)
    requires AllPlain(h) && t.provider != ""
    ensures Rewritable(h, t)
  {
    forall j | 0 <= j < |h| ensures RewritableAt(h, t, j) {
      if h[j].Call? {
        PlainRewritable(h, j, t);
      }
    }
  }

  // ---------------------------------------------------------------- what is sent

  datatype Sending = Unprepared | Clashing | Sent(messages: seq<Ready>)

  // Every adapter but Bedrock's validates the native body before it is sent.
  predicate Rechecks(t: Target) {
    t.provider != "bedrock"
  }

  // On the Responses wire the native items of one turn are joined.
  predicate JoinsNative(t: Target) {
    t.wire.OpenAiResponses?
  }

  ghost predicate Prepares(h: seq<Item>, t: Target, controls: bool) {
    Sound(Checked(h, JoinsNative(t) && controls)) && Rewritable(h, t) && NamesAgree(h)
  }

  /**
   From the history to the provider: it is validated, rewritten and validated again under its new ids. A prepared
   history is refused there exactly when its ids clash, so what is sent is sound wherever there is a second look, and
   for calls that never saw an owned id everywhere.
   */
  method Send(h: seq<Item>, t: Target, controls: bool, scope: string, mints: nat -> string) returns (s: Sending)
    requires FreshIds(h, mints) && FreshScope(h, scope) && Opens(h) && t.wire != GoogleGenerateContent
    ensures s.Unprepared? <==> !Prepares(h, t, controls)
    ensures s.Clashing? <==> Prepares(h, t, controls) && Rechecks(t) && !ClearTo(h, t, mints, |h|)
    ensures s.Sent? ==> Identified(h, s.messages, t) && Shows(h, s.messages, t, mints)
    ensures s.Sent? ==>
              (Sound(Checked(Wired(h, s.messages), JoinsNative(t))) <==> Rechecks(t) || ClearTo(h, t, mints, |h|))
    ensures s.Sent? && AllPlain(h) ==> Sound(Checked(Wired(h, s.messages), JoinsNative(t)))
    ensures AllPlain(h) && t.provider != "" && NamesAgree(h) && Sound(Checked(h, JoinsNative(t) && controls)) ==>
              s.Sent?
  {
    JoinedSound(h);
    if AllPlain(h) && t.provider != "" {
      PlainIsRewritable(h, t);
    }
    var prepared, _ := PrepareRequest(h, t, JoinsNative(t) && controls, scope, mints);
    if prepared.Err? {
      return Unprepared;
    }
    var messages := prepared.value;
    SoundAsSent(h, messages, t, mints, JoinsNative(t));
    if AllPlain(h) {
      PlainIsClear(h, t, mints);
    }
    if Rechecks(t) {
      var native := Wired(h, messages);
      if JoinsNative(t) {
        native := JoinTurns(native);
      }
      var ok := ValidateHistory(native);
      if !ok {
        return Clashing;
      }
    }
    return Sent(messages);
  }

  // ---------------------------------------------------------------- where ids clash

  // One turn: a plain call "a", and an owned call whose mapping has it go out as "a" too.
  function Clash(t: Target, name: string): seq<Item> {
    [Turn, Call(ToolCall("a", name, true, Mapping.Absent, false)),
     Call(ToolCall("call_ls_1", name, true, Bindings([Binding(t, "chat", 0, "a")]), false)),
     Answer(Some("a"), None), Answer(Some("call_ls_1"), None)]
  }

  lemma {:induction false} ClashSound(t: Target, name: string)
    requires name != ""
    ensures Sound(Clash(t, name))
  {
    var h := Clash(t, name);
    assert Awaits(h, 1, 3, "a") && Awaits(h, 2, 4, "call_ls_1");
    assert IsAnswer(h[3], "a") && IsAnswer(h[4], "call_ls_1");
    assert AnsweredBy(h, 1, 5) && AnsweredBy(h, 2, 5);
    assert forall j :: 0 <= j < |h| ==> SoundAt(h, j);
  }

  lemma {:induction false} ClashRewritable(t: Target, name: string)
    requires t.provider != ""
    ensures Rewritable(Clash(t, name), t) && NamesAgree(Clash(t, name))
  {
    var h := Clash(t, name);
    forall j | 0 <= j < |h| ensures RewritableAt(h, t, j) {
      if j == 1 {
        PlainRewritable(h, 1, t);
      } else if j == 2 {
        assert forall k :: !Maps(h[1].call, t, k);
      }
    }
  }

  /**
   A sound history whose two pending calls would go out under one id. For every target it is prepared; where there is a
   second look it is refused, and where there is none it is sent, and not sound.
   */
  method SendClash(t: Target, name: string, controls: bool, scope: string, mints: nat -> string) returns (s: Sending)
    requires name != "" && t.provider != "" && t.wire != GoogleGenerateContent
    requires FreshIds(Clash(t, name), mints) && FreshScope(Clash(t, name), scope)
    ensures Sound(Clash(t, name))
    ensures if Rechecks(t) then s.Clashing?
            else
              && s.Sent? && Identified(Clash(t, name), s.messages, t)
              && !Sound(Checked(Wired(Clash(t, name), s.messages), JoinsNative(t)))
  {
    var h := Clash(t, name);
    ClashSound(t, name);
    JoinedSound(h);
    ClashRewritable(t, name);
    assert !Apart(h, t, mints, 1, 2);
    s := Send(h, t, controls, scope, mints);
  }
}
