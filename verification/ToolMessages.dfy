/** Merging tool results into their calls (`coalesceToolMessages` in `apps/web/src/session-model.ts`). */
module ToolMessages {
  import opened Wrappers

  datatype Role = User | Assistant | Tool

  datatype Message = Message(
    id: string,
    role: Role,
    text: string,
    time: string,
    streaming: Option<bool>,
    toolCallId: Option<string>,
    toolName: Option<string>,
    toolInput: Option<string>,
    toolOutput: Option<string>,
    isError: Option<bool>)

  function Lower(s: string): string {
    seq(|s|, i requires 0 <= i < |s| => if 'A' <= s[i] <= 'Z' then s[i] - 'A' + 'a' else s[i])
  }

  predicate IsResult(m: Message) {
    m.role.Tool? && m.toolName.Some? && Lower(m.toolName.value) == "result"
  }

  /** A call with a usable, that is non-empty, id. */
  predicate IsCall(m: Message, callId: string) {
    m.role.Tool? && !IsResult(m) && callId != "" && m.toolCallId == Some(callId)
  }

  function Or(value: Option<string>, fallback: string): string {
    if value.Some? then value.value else fallback
  }

  /** How a message that stays is shown before any result is merged into it; `clean` is `cleanToolText`. */
  function Normalize(clean: string -> string, m: Message): Message {
    if !m.role.Tool? then m
    else if IsResult(m) then m.(toolOutput := Some(clean(Or(m.toolOutput, m.text))))
    else
      var called := m.(toolInput := Some(clean(Or(m.toolInput, m.text))));
      if Or(m.toolOutput, "") != "" then called.(toolOutput := Some(clean(m.toolOutput.value))) else called
  }

  function Absorb(clean: string -> string, call: Message, result: Message): Message {
    call.(
      toolOutput := Some(clean(Or(result.toolOutput, result.text))),
      streaming := Some(false),
      isError := if result.isError.Some? then result.isError else call.isError)
  }

  // ---------- the rule, message by message ----------

  /** The latest call before `i` with this id. */
  function LatestCall(messages: seq<Message>, i: nat, callId: string): (at: Option<nat>)
    requires i <= |messages|
    ensures at.Some? ==> at.value < i && IsCall(messages[at.value], callId)
    ensures at.Some? ==> forall j :: at.value < j < i ==> !IsCall(messages[j], callId)
    ensures at.None? ==> forall j :: 0 <= j < i ==> !IsCall(messages[j], callId)
  {
    if i == 0 then None
    else if IsCall(messages[i - 1], callId) then Some(i - 1)
    else LatestCall(messages, i - 1, callId)
  }

  /** Where message `i` goes: results with an earlier call of their id go into the latest such call. */
  function Home(messages: seq<Message>, i: nat): (home: Option<nat>)
    requires i < |messages|
    ensures home.Some? ==> home.value < i
  {
    if IsResult(messages[i]) && messages[i].toolCallId.Some? then LatestCall(messages, i, messages[i].toolCallId.value)
    else None
  }

  /** The positions among the first `n` that are not absorbed. */
  function Kept(messages: seq<Message>, n: nat): (kept: seq<nat>)
    requires n <= |messages|
    ensures forall p :: 0 <= p < |kept| ==> kept[p] < n
  {
    if n == 0 then []
    else if Home(messages, n - 1).Some? then Kept(messages, n - 1)
    else Kept(messages, n - 1) + [n - 1]
  }

  /** Message `k` after the results among the first `n` that belong to it. */
  function Shown(clean: string -> string, messages: seq<Message>, k: nat, n: nat): Message
    requires k < n <= |messages|
  {
    if n == k + 1 then Normalize(clean, messages[k])
    else
      var before := Shown(clean, messages, k, n - 1);
      if Home(messages, n - 1) == Some(k) then Absorb(clean, before, messages[n - 1]) else before
  }

  // ---------- the single pass ----------

  /** `result` is what the first `n` messages should show. */
  predicate ShowsFirst(clean: string -> string, messages: seq<Message>, n: nat, result: seq<Message>)
    requires n <= |messages|
  {
    |result| == |Kept(messages, n)| &&
    forall p :: 0 <= p < |result| ==> result[p] == Shown(clean, messages, Kept(messages, n)[p], n)
  }

  /** `calls` maps each id to the position in the result of its latest call. */
  ghost predicate Indexes(calls: map<string, nat>, messages: seq<Message>, n: nat)
    requires n <= |messages|
  {
    && (forall id :: id in calls <==> LatestCall(messages, n, id).Some?)
    && (forall id :: id in calls ==>
      calls[id] < |Kept(messages, n)| && LatestCall(messages, n, id) == Some(Kept(messages, n)[calls[id]]))
  }

  lemma KeepOne(clean: string -> string, messages: seq<Message>, n: nat, result: seq<Message>)
    requires n < |messages| && ShowsFirst(clean, messages, n, result) && Home(messages, n).None?
    ensures ShowsFirst(clean, messages, n + 1, result + [Normalize(clean, messages[n])])
  {
    var kept := Kept(messages, n);
    assert Kept(messages, n + 1) == kept + [n];
    forall p | 0 <= p < |kept| ensures Shown(clean, messages, kept[p], n + 1) == result[p] {
    }
  }

  lemma AbsorbOne(clean: string -> string, messages: seq<Message>, n: nat, result: seq<Message>, index: nat)
    requires n < |messages| && ShowsFirst(clean, messages, n, result) && index < |result|
    requires Home(messages, n) == Some(Kept(messages, n)[index])
    ensures ShowsFirst(clean, messages, n + 1, result[index := Absorb(clean, result[index], messages[n])])
  {
    var kept := Kept(messages, n);
    assert Kept(messages, n + 1) == kept;
    KeptIsAscending(messages, n);
  }

  lemma {:induction false} KeptIsAscending(messages: seq<Message>, n: nat)
    requires n <= |messages|
    ensures forall p, q :: 0 <= p < q < |Kept(messages, n)| ==> Kept(messages, n)[p] < Kept(messages, n)[q]
  {
    if n > 0 { KeptIsAscending(messages, n - 1); }
  }

  lemma IndexesNext(calls: map<string, nat>, messages: seq<Message>, n: nat)
    requires n < |messages| && Indexes(calls, messages, n)
    requires forall id :: !IsCall(messages[n], id)
    ensures Indexes(calls, messages, n + 1)
  {
    assert Kept(messages, n) <= Kept(messages, n + 1);
    assert forall id :: LatestCall(messages, n + 1, id) == LatestCall(messages, n, id);
  }

  /** Calls are kept, so a new one is indexed at the end of the result. */
  lemma CallsAreKept(messages: seq<Message>, n: nat, callId: string)
    requires n < |messages| && IsCall(messages[n], callId)
    ensures Kept(messages, n + 1) == Kept(messages, n) + [n]
  {
    assert Home(messages, n).None?;
  }

  lemma LatestCallMoves(messages: seq<Message>, n: nat, callId: string, id: string)
    requires n < |messages| && IsCall(messages[n], callId)
    ensures LatestCall(messages, n + 1, id) == if id == callId then Some(n) else LatestCall(messages, n, id)
  {
  }

  lemma IndexesCall(calls: map<string, nat>, messages: seq<Message>, n: nat, callId: string)
    requires n < |messages| && Indexes(calls, messages, n) && IsCall(messages[n], callId)
    ensures Indexes(calls[callId := |Kept(messages, n)|], messages, n + 1)
  {
    var kept, next := Kept(messages, n), Kept(messages, n + 1);
    var now := calls[callId := |kept|];
    CallsAreKept(messages, n, callId);
    forall id ensures id in now <==> LatestCall(messages, n + 1, id).Some? {
      LatestCallMoves(messages, n, callId, id);
    }
    forall id | id in now
      ensures now[id] < |next| && LatestCall(messages, n + 1, id) == Some(next[now[id]])
    {
      LatestCallMoves(messages, n, callId, id);
    }
  }

  method Coalesce(clean: string -> string, messages: seq<Message>) returns (result: seq<Message>)
    ensures ShowsFirst(clean, messages, |messages|, result)
  {
    result := [];
    var calls: map<string, nat> := map[];
    for n := 0 to |messages|
      invariant ShowsFirst(clean, messages, n, result) && Indexes(calls, messages, n)
    {
      var message := messages[n];
      if !message.role.Tool? {
        KeepOne(clean, messages, n, result);
        IndexesNext(calls, messages, n);
        result := result + [message];
        continue;
      }
      var callId := Or(message.toolCallId, "");
      if IsResult(message) && callId != "" && callId in calls {
        var index := calls[callId];
        AbsorbOne(clean, messages, n, result, index);
        IndexesNext(calls, messages, n);
        result := result[index := Absorb(clean, result[index], message)];
        continue;
      }
      assert Home(messages, n).None?;
      KeepOne(clean, messages, n, result);
      if callId != "" && !IsResult(message) {
        IndexesCall(calls, messages, n, callId);
        calls := calls[callId := |result|];
      } else {
        IndexesNext(calls, messages, n);
      }
      result := result + [Normalize(clean, message)];
    }
  }

  // ---------- what the rule amounts to ----------

  /** The number of messages among the first `n` that are absorbed. */
  function Absorbed(messages: seq<Message>, n: nat): nat
    requires n <= |messages|
  {
    if n == 0 then 0 else Absorbed(messages, n - 1) + if Home(messages, n - 1).Some? then 1 else 0
  }

  /** A message is absorbed exactly when it is a result and an earlier call has its id. */
  lemma AbsorbedMeansEarlierCall(messages: seq<Message>, i: nat)
    requires i < |messages|
    ensures Home(messages, i).Some? <==>
      && IsResult(messages[i])
      && messages[i].toolCallId.Some?
      && exists j :: 0 <= j < i && IsCall(messages[j], messages[i].toolCallId.value)
  {
  }

  /** Nothing else is dropped or moved. */
  lemma {:induction false} OthersStayInOrder(messages: seq<Message>, n: nat, k: nat)
    requires n <= |messages| && k < n
    ensures k in Kept(messages, n) <==> Home(messages, k).None?
    ensures forall p, q :: 0 <= p < q < |Kept(messages, n)| ==> Kept(messages, n)[p] < Kept(messages, n)[q]
  {
    KeptIsAscending(messages, n);
    if k < n - 1 {
      OthersStayInOrder(messages, n - 1, k);
    } else {
      var before := Kept(messages, n - 1);
      assert forall p :: 0 <= p < |before| ==> before[p] < k;
    }
  }

  lemma {:induction false} LengthDropsByAbsorbed(messages: seq<Message>, n: nat)
    requires n <= |messages|
    ensures |Kept(messages, n)| + Absorbed(messages, n) == n
  {
    if n > 0 { LengthDropsByAbsorbed(messages, n - 1); }
  }

  /** Only a call changes, and it shows the output of the last result that belongs to it. */
  lemma {:induction false} LastResultWins(clean: string -> string, messages: seq<Message>, k: nat, n: nat, last: nat)
    requires k < n <= |messages| && k < last < n && Home(messages, last) == Some(k)
    requires forall i :: last < i < n ==> Home(messages, i) != Some(k)
    ensures var shown := Shown(clean, messages, k, n);
      && IsCall(messages[k], messages[last].toolCallId.value)
      && shown.toolOutput == Some(clean(Or(messages[last].toolOutput, messages[last].text)))
      && shown.streaming == Some(false)
      && (messages[last].isError.Some? ==> shown.isError == messages[last].isError)
      && shown.(toolOutput := None, streaming := None, isError := None) ==
        Normalize(clean, messages[k]).(toolOutput := None, streaming := None, isError := None)
  {
    AbsorbingTouchesThreeFields(clean, messages, k, n);
    if n > last + 1 {
      LastResultWins(clean, messages, k, n - 1, last);
    }
  }

  /** A call shows the last error flag that a result of its carries, or else its own; `flagged` is that result. */
  lemma {:induction false} LastErrorFlagWins(clean: string -> string, messages: seq<Message>, k: nat, n: nat,
    flagged: Option<nat>)
    requires k < n <= |messages|
    requires flagged.Some? ==> k < flagged.value < n && Home(messages, flagged.value) == Some(k)
    requires flagged.Some? ==> messages[flagged.value].isError.Some?
    requires var from := if flagged.Some? then flagged.value else k;
      forall i :: from < i < n && Home(messages, i) == Some(k) ==> messages[i].isError.None?
    ensures Shown(clean, messages, k, n).isError == messages[if flagged.Some? then flagged.value else k].isError
  {
    if n > (if flagged.Some? then flagged.value else k) + 1 {
      LastErrorFlagWins(clean, messages, k, n - 1, flagged);
    }
  }

  lemma {:induction false} AbsorbingTouchesThreeFields(clean: string -> string, messages: seq<Message>, k: nat, n: nat)
    requires k < n <= |messages|
    ensures Shown(clean, messages, k, n).(toolOutput := None, streaming := None, isError := None) ==
      Normalize(clean, messages[k]).(toolOutput := None, streaming := None, isError := None)
  {
    if n > k + 1 { AbsorbingTouchesThreeFields(clean, messages, k, n - 1); }
  }

  /** A result is a tool message named "result", in letters of either case. */
  lemma ResultsByName(m: Message)
    ensures IsResult(m) <==>
      && m.role == Tool && m.toolName.Some? && |m.toolName.value| == 6
      && forall i :: 0 <= i < 6 ==> m.toolName.value[i] == "result"[i] || m.toolName.value[i] == "RESULT"[i]
  {
    if m.toolName.Some? && |m.toolName.value| == 6 {
      var name := m.toolName.value;
      assert Lower(name) == "result" <==> forall i :: 0 <= i < 6 ==> Lower(name)[i] == "result"[i];
      forall i | 0 <= i < 6
        ensures Lower(name)[i] == "result"[i] <==> name[i] == "result"[i] || name[i] == "RESULT"[i]
      {
        assert i == 0 || i == 1 || i == 2 || i == 3 || i == 4 || i == 5;
      }
    }
  }

  /** Messages without an id are never merged, and a result is never merged into another result. */
  lemma OnlyNamedCallsAbsorb(messages: seq<Message>, i: nat)
    requires i < |messages| && Home(messages, i).Some?
    ensures var call := messages[Home(messages, i).value];
      && messages[i].toolCallId.Some? && messages[i].toolCallId.value != ""
      && call.toolCallId == messages[i].toolCallId && call.role == Tool && !IsResult(call)
  {
  }

  /**
    Before any result is merged, a result shows its cleaned output, a call its cleaned input and
    output; all else is kept.
  */
  lemma NormalizedFields(clean: string -> string, m: Message)
    ensures var shown := Normalize(clean, m);
      && (m.role != Tool ==> shown == m)
      && (IsResult(m) ==> shown.toolInput == m.toolInput)
      && (IsResult(m) && m.toolOutput.Some? ==> shown.toolOutput == Some(clean(m.toolOutput.value)))
      && (IsResult(m) && m.toolOutput.None? ==> shown.toolOutput == Some(clean(m.text)))
      && (m.role == Tool && !IsResult(m) && m.toolInput.Some? ==> shown.toolInput == Some(clean(m.toolInput.value)))
      && (m.role == Tool && !IsResult(m) && m.toolInput.None? ==> shown.toolInput == Some(clean(m.text)))
      && (m.role == Tool && !IsResult(m) && m.toolOutput.Some? && m.toolOutput.value != "" ==>
            shown.toolOutput == Some(clean(m.toolOutput.value)))
      && (m.role == Tool && !IsResult(m) && (m.toolOutput.None? || m.toolOutput.value == "") ==>
            shown.toolOutput == m.toolOutput)
      && shown.(toolInput := None, toolOutput := None) == m.(toolInput := None, toolOutput := None)
  {
  }

  lemma {:induction false} UntouchedWithoutResults(clean: string -> string, messages: seq<Message>, k: nat, n: nat)
    requires k < n <= |messages| && forall i :: k < i < n ==> Home(messages, i) != Some(k)
    ensures Shown(clean, messages, k, n) == Normalize(clean, messages[k])
  {
    if n > k + 1 { UntouchedWithoutResults(clean, messages, k, n - 1); }
  }
}
