/**
 * The dashboard server's text-message side: `POST /api/send` renders the
 * message for each number, hands it to the messaging provider and records
 * the outcome; the in-memory `messagesDB` and `autoReplies` lists only grow.
 *
 * The provider call is an oracle: `replies[i]` is what the provider answers
 * for the i-th number, and `freshIds[i]` is the id `uuidv4()` would produce
 * for it.
 */
module BulkSend {
  import opened Wrappers
  import TextReplace

  /** `variables[num]`: placeholder name to value, in `Object.keys` order. */
  type Bindings = seq<(string, string)>

  datatype SendRequest = SendRequest(
    numbers: Option<seq<string>>,
    message: Option<string>,
    variables: Option<map<string, Bindings>>)

  /** What the provider answers to one send call. */
  datatype ProviderReply =
    | ProviderOk(messageId: Option<string>)    // `resp.data.messages?.[0]?.id`
    | ProviderError(description: string)       // `e.toString()` of the thrown error

  /** The text message handed to the provider: `{to, text: {body}}`. */
  datatype Outbound = Outbound(to: string, body: string)

  datatype SendResult = Sent(number: string) | Failed(number: string, error: string)

  datatype StoredMessage = StoredMessage(id: string, number: string, status: string, message: string)

  datatype Rule = Rule(keyword: Option<string>, reply: Option<string>)

  datatype SendResponse = BadRequest(error: string) | SendOk(results: seq<SendResult>)

  datatype Dashboard = Dashboard(messages: seq<StoredMessage>, autoReplies: seq<Rule>)

  const MISSING_INPUT := "numbers & message required"

  // ---------------------------------------------------------------------
  // Placeholder rendering

  function Placeholder(key: string): (p: string)
    ensures p != []
  {
    "{{" + key + "}}"
  }

  /** The text after substituting the bindings one after another, first key first. */
  function Rendered(message: string, bindings: Bindings): string
  {
    if bindings == [] then message
    else
      var (key, value) := bindings[|bindings| - 1];
      TextReplace.ReplaceAll(Rendered(message, bindings[..|bindings| - 1]), Placeholder(key), value)
  }

  /** The inner `forEach`: `msgText` is rewritten once per key. */
  method Render(message: string, bindings: Bindings) returns (text: string)
    ensures text == Rendered(message, bindings)
  {
    text := message;
    var i := 0;
    while i < |bindings|
      invariant 0 <= i <= |bindings|
      invariant text == Rendered(message, bindings[..i])
    {
      assert bindings[..i + 1][..i] == bindings[..i];
      var (key, value) := bindings[i];
      text := TextReplace.ReplaceAll(text, Placeholder(key), value);
      i := i + 1;
    }
    assert bindings[..|bindings|] == bindings;
  }

  /** With one key, every occurrence of its placeholder is cut out and replaced. */
  lemma RenderOneKeyReplacesEvery(message: string, key: string, value: string)
    ensures Rendered(message, [(key, value)]) == TextReplace.Join(TextReplace.Split(message, Placeholder(key)), value)
    ensures TextReplace.Join(TextReplace.Split(message, Placeholder(key)), Placeholder(key)) == message
    ensures forall k :: 0 <= k < |TextReplace.Split(message, Placeholder(key))| ==>
      !TextReplace.Contains(TextReplace.Split(message, Placeholder(key))[k], Placeholder(key))
  {
    assert [(key, value)][..0] == [];
    TextReplace.ReplaceAllIsSplitJoin(message, Placeholder(key), value);
    TextReplace.SplitJoin(message, Placeholder(key));
    TextReplace.SplitPiecesFree(message, Placeholder(key));
  }

  /** Keys are applied in sequence, each on the output of the ones before. */
  lemma {:induction false} RenderSequential(message: string, first: Bindings, second: Bindings)
    ensures Rendered(message, first + second) == Rendered(Rendered(message, first), second)
  {
    if second != [] {
      var all := first + second;
      assert all[..|all| - 1] == first + second[..|second| - 1];
      assert all[|all| - 1] == second[|second| - 1];
      RenderSequential(message, first, second[..|second| - 1]);
    } else {
      assert first + second == first;
    }
  }

  /** A text holding no placeholder of any supplied key is sent verbatim. */
  lemma {:induction false} RenderUnsuppliedVerbatim(message: string, bindings: Bindings)
    requires forall i :: 0 <= i < |bindings| ==> !TextReplace.Contains(message, Placeholder(bindings[i].0))
    ensures Rendered(message, bindings) == message
  {
    if bindings != [] {
      var init := bindings[..|bindings| - 1];
      assert forall i :: 0 <= i < |init| ==> init[i] == bindings[i];
      RenderUnsuppliedVerbatim(message, init);
      var (key, value) := bindings[|bindings| - 1];
      assert !TextReplace.Contains(message, Placeholder(bindings[|bindings| - 1].0));
      TextReplace.ReplaceAllAbsent(message, Placeholder(key), value);
    }
  }

  /** A key without braces: its placeholder cannot overlap another placeholder. */
  predicate BraceFree(key: string)
  {
    forall i :: 0 <= i < |key| ==> key[i] != '{' && key[i] != '}'
  }

  /** One differing character at offset `j` rules out an occurrence at `q`. */
  lemma MismatchAt(t: string, pat: string, q: nat, j: nat)
    requires j < |pat| && q + j < |t| && t[q + j] != pat[j]
    ensures !TextReplace.OccursAt(t, pat, q)
  {
    if q + |pat| <= |t| {
      assert t[q..q + |pat|][j] == t[q + j];
    }
  }

  /**
   * No occurrence of the placeholder of key `k` touches the placeholder of
   * a different brace-free key `c`, whatever text surrounds it.
   */
  lemma PlaceholderUntouched(u: string, c: string, v: string, k: string)
    requires BraceFree(c) && BraceFree(k) && c != k
    ensures forall q: nat :: q < |u| + |Placeholder(c)| && |u| < q + |Placeholder(k)| ==>
      !TextReplace.OccursAt(u + Placeholder(c) + v, Placeholder(k), q)
  {
    var t, pc, pk, p := u + Placeholder(c) + v, Placeholder(c), Placeholder(k), |u|;
    assert forall i :: 0 <= i < |pc| ==> t[p + i] == pc[i];
    forall q: nat | q < p + |pc| && p < q + |pk| ensures !TextReplace.OccursAt(t, pk, q) {
      if q < p {
        if p - q >= 2 {
          MismatchAt(t, pk, q, p - q);
        } else {
          MismatchAt(t, pk, q, 2);
        }
      } else if q == p {
        if |k| < |c| {
          MismatchAt(t, pk, q, 2 + |k|);
        } else if |k| > |c| {
          MismatchAt(t, pk, q, 2 + |c|);
        } else {
          var i :| 0 <= i < |k| && k[i] != c[i];
          MismatchAt(t, pk, q, 2 + i);
        }
      } else if q == p + 1 {
        MismatchAt(t, pk, q, 1);
      } else {
        MismatchAt(t, pk, q, 0);
      }
    }
  }

  /** Replacing `{{k}}` in `u + {{c}} + v` replaces in `u` and in `{{c}} + v` separately. */
  lemma ReplaceAllSplitsBefore(u: string, c: string, v: string, k: string, value: string)
    requires BraceFree(c) && BraceFree(k) && c != k
    ensures TextReplace.ReplaceAll(u + Placeholder(c) + v, Placeholder(k), value) ==
      TextReplace.ReplaceAll(u, Placeholder(k), value) + TextReplace.ReplaceAll(Placeholder(c) + v, Placeholder(k), value)
  {
    var pc, pk := Placeholder(c), Placeholder(k);
    PlaceholderUntouched(u, c, v, k);
    assert u + pc + v == u + (pc + v);
    assert TextReplace.NoStraddle(u, pc + v, pk);
    TextReplace.ReplaceAllConcat(u, pc + v, pk, value);
  }

  /** The placeholder of a brace-free key holds no placeholder of a different one. */
  lemma PlaceholderAbsent(c: string, k: string)
    requires BraceFree(c) && BraceFree(k) && c != k
    ensures !TextReplace.Contains(Placeholder(c), Placeholder(k))
  {
    PlaceholderUntouched([], c, [], k);
    assert [] + Placeholder(c) + [] == Placeholder(c);
  }

  /** Replacing `{{k}}` in `{{c}} + v` keeps `{{c}}` and replaces in `v`. */
  lemma ReplaceAllSkipsPlaceholder(c: string, v: string, k: string, value: string)
    requires BraceFree(c) && BraceFree(k) && c != k
    ensures TextReplace.ReplaceAll(Placeholder(c) + v, Placeholder(k), value) ==
      Placeholder(c) + TextReplace.ReplaceAll(v, Placeholder(k), value)
  {
    var pc, pk := Placeholder(c), Placeholder(k);
    PlaceholderUntouched([], c, v, k);
    assert [] + pc + v == pc + v;
    assert TextReplace.NoStraddle(pc, v, pk);
    TextReplace.ReplaceAllConcat(pc, v, pk, value);
    PlaceholderAbsent(c, k);
    TextReplace.ReplaceAllAbsent(pc, pk, value);
  }

  /** Replacing a different brace-free key leaves the placeholder of `c` in place. */
  lemma ReplaceAllAround(u: string, c: string, v: string, k: string, value: string)
    requires BraceFree(c) && BraceFree(k) && c != k
    ensures TextReplace.ReplaceAll(u + Placeholder(c) + v, Placeholder(k), value) ==
      TextReplace.ReplaceAll(u, Placeholder(k), value) + Placeholder(c) + TextReplace.ReplaceAll(v, Placeholder(k), value)
  {
    ReplaceAllSplitsBefore(u, c, v, k, value);
    ReplaceAllSkipsPlaceholder(c, v, k, value);
  }

  /**
   * A placeholder whose key is not supplied survives rendering verbatim,
   * while the text on each side of it is rendered as usual.
   */
  lemma {:induction false} RenderKeepsUnsupplied(u: string, c: string, v: string, bindings: Bindings)
    requires BraceFree(c)
    requires forall i :: 0 <= i < |bindings| ==> BraceFree(bindings[i].0) && bindings[i].0 != c
    ensures Rendered(u + Placeholder(c) + v, bindings) == Rendered(u, bindings) + Placeholder(c) + Rendered(v, bindings)
  {
    if bindings != [] {
      var init := bindings[..|bindings| - 1];
      assert forall i :: 0 <= i < |init| ==> init[i] == bindings[i];
      RenderKeepsUnsupplied(u, c, v, init);
      var (key, value) := bindings[|bindings| - 1];
      assert BraceFree(bindings[|bindings| - 1].0) && bindings[|bindings| - 1].0 != c;
      ReplaceAllAround(Rendered(u, init), c, Rendered(v, init), key, value);
    }
  }

  /** The text sent to `num`: the rendered message if it has variables, else the message itself. */
  function MessageText(message: string, variables: Option<map<string, Bindings>>, num: string): string
  {
    if variables.Some? && num in variables.value then Rendered(message, variables.value[num]) else message
  }

  lemma NoVariablesSendsMessage(message: string, variables: Option<map<string, Bindings>>, num: string)
    requires variables.None? || num !in variables.value || variables.value[num] == []
    ensures MessageText(message, variables, num) == message
  {
  }

  // ---------------------------------------------------------------------
  // The send loop, as functions of the inputs

  /** `numbers` and `message` are both present and truthy (an empty array is truthy, "" is not). */
  predicate Sendable(req: SendRequest)
  {
    req.numbers.Some? && req.message.Some? && req.message.value != ""
  }

  /** The id a stored message gets: the provider's id unless absent or empty, else a fresh one. */
  function StoredId(messageId: Option<string>, freshId: string): (id: string)
    ensures messageId.Some? && messageId.value != "" ==> id == messageId.value
    ensures messageId.None? || messageId == Some("") ==> id == freshId
  {
    if messageId.Some? && messageId.value != "" then messageId.value else freshId
  }

  function ResultFor(num: string, reply: ProviderReply): SendResult
  {
    match reply
    case ProviderOk(_) => Sent(num)
    case ProviderError(e) => Failed(num, e)
  }

  function Results(numbers: seq<string>, replies: seq<ProviderReply>): (results: seq<SendResult>)
    requires |replies| == |numbers|
  {
    if numbers == [] then []
    else
      var n := |numbers| - 1;
      Results(numbers[..n], replies[..n]) + [ResultFor(numbers[n], replies[n])]
  }

  function Calls(numbers: seq<string>, message: string, variables: Option<map<string, Bindings>>): seq<Outbound>
  {
    if numbers == [] then []
    else
      var n := |numbers| - 1;
      Calls(numbers[..n], message, variables) + [Outbound(numbers[n], MessageText(message, variables, numbers[n]))]
  }

  /** The entry stored for the i-th number when its send succeeded. */
  function StoredFor(num: string, text: string, messageId: Option<string>, freshId: string): StoredMessage
  {
    StoredMessage(StoredId(messageId, freshId), num, "sent", text)
  }

  function NewMessages(numbers: seq<string>, message: string, variables: Option<map<string, Bindings>>,
                       replies: seq<ProviderReply>, freshIds: seq<string>): seq<StoredMessage>
    requires |replies| == |numbers| == |freshIds|
  {
    if numbers == [] then []
    else
      var n := |numbers| - 1;
      NewMessages(numbers[..n], message, variables, replies[..n], freshIds[..n]) +
        (match replies[n]
         case ProviderOk(id) => [StoredFor(numbers[n], MessageText(message, variables, numbers[n]), id, freshIds[n])]
         case ProviderError(_) => [])
  }

  /** The positions whose send succeeded, in send order. */
  function SuccessPositions(replies: seq<ProviderReply>): seq<nat>
  {
    if replies == [] then []
    else
      var n := |replies| - 1;
      SuccessPositions(replies[..n]) + (if replies[n].ProviderOk? then [n] else [])
  }

  /** One result per number, in input order; `sent` exactly when the provider call succeeded. */
  lemma {:induction false} ResultsOnePerNumber(numbers: seq<string>, replies: seq<ProviderReply>)
    requires |replies| == |numbers|
    ensures var results := Results(numbers, replies);
      && |results| == |numbers|
      && forall i :: 0 <= i < |numbers| ==>
        && results[i].number == numbers[i]
        && (results[i].Sent? <==> replies[i].ProviderOk?)
        && (results[i].Failed? ==> results[i].error == replies[i].description)
  {
    if numbers != [] {
      var n := |numbers| - 1;
      ResultsOnePerNumber(numbers[..n], replies[..n]);
    }
  }

  /** One outbound call per number, in input order, carrying that number's text. */
  lemma {:induction false} CallsOnePerNumber(numbers: seq<string>, message: string, variables: Option<map<string, Bindings>>)
    ensures var calls := Calls(numbers, message, variables);
      && |calls| == |numbers|
      && forall i :: 0 <= i < |numbers| ==>
        calls[i] == Outbound(numbers[i], MessageText(message, variables, numbers[i]))
  {
    if numbers != [] {
      CallsOnePerNumber(numbers[..|numbers| - 1], message, variables);
    }
  }

  /** The successful positions strictly increase and are exactly the positions whose call succeeded. */
  lemma {:induction false} SuccessPositionsExact(replies: seq<ProviderReply>)
    ensures var pos := SuccessPositions(replies);
      && (forall k :: 0 <= k < |pos| ==> pos[k] < |replies| && replies[pos[k]].ProviderOk?)
      && (forall k, l :: 0 <= k < l < |pos| ==> pos[k] < pos[l])
      && (forall i :: 0 <= i < |replies| ==> (i in pos <==> replies[i].ProviderOk?))
  {
    if replies != [] {
      var n := |replies| - 1;
      SuccessPositionsExact(replies[..n]);
      var pos := SuccessPositions(replies);
      var initPos := SuccessPositions(replies[..n]);
      assert forall i :: 0 <= i < n ==> replies[..n][i] == replies[i];
      assert forall k :: 0 <= k < |initPos| ==> pos[k] == initPos[k];
    }
  }

  /** The k-th new entry is the one stored for the k-th successful position. */
  lemma {:induction false} NewMessagesAtSuccessPositions(numbers: seq<string>, message: string,
      variables: Option<map<string, Bindings>>, replies: seq<ProviderReply>, freshIds: seq<string>)
    requires |replies| == |numbers| == |freshIds|
    ensures var added := NewMessages(numbers, message, variables, replies, freshIds);
      var pos := SuccessPositions(replies);
      && |added| == |pos|
      && forall k :: 0 <= k < |pos| ==>
        && pos[k] < |numbers|
        && replies[pos[k]].ProviderOk?
        && added[k] == StoredFor(numbers[pos[k]], MessageText(message, variables, numbers[pos[k]]),
                                 replies[pos[k]].messageId, freshIds[pos[k]])
  {
    if numbers != [] {
      var n := |numbers| - 1;
      NewMessagesAtSuccessPositions(numbers[..n], message, variables, replies[..n], freshIds[..n]);
      SuccessPositionsExact(replies[..n]);
      var initPos := SuccessPositions(replies[..n]);
      assert forall k :: 0 <= k < |initPos| ==>
        numbers[..n][initPos[k]] == numbers[initPos[k]] &&
        replies[..n][initPos[k]] == replies[initPos[k]] &&
        freshIds[..n][initPos[k]] == freshIds[initPos[k]];
    }
  }

  /**
   * The new `messagesDB` entries are one per successful send, in send order:
   * the k-th entry belongs to the k-th successful position, carries status
   * `sent`, that number, its text and the id rule; a position is among them
   * exactly when its send succeeded.
   */
  lemma NewMessagesOnePerSuccess(numbers: seq<string>, message: string,
      variables: Option<map<string, Bindings>>, replies: seq<ProviderReply>, freshIds: seq<string>)
    requires |replies| == |numbers| == |freshIds|
    ensures var added := NewMessages(numbers, message, variables, replies, freshIds);
      var pos := SuccessPositions(replies);
      && |added| == |pos|
      && (forall k, l :: 0 <= k < l < |pos| ==> pos[k] < pos[l])
      && (forall i :: 0 <= i < |replies| ==> (i in pos <==> replies[i].ProviderOk?))
      && forall k :: 0 <= k < |pos| ==>
        && pos[k] < |numbers|
        && replies[pos[k]].ProviderOk?
        && added[k] == StoredFor(numbers[pos[k]], MessageText(message, variables, numbers[pos[k]]),
                                 replies[pos[k]].messageId, freshIds[pos[k]])
  {
    SuccessPositionsExact(replies);
    NewMessagesAtSuccessPositions(numbers, message, variables, replies, freshIds);
  }

  /** `messagesDB` grows by exactly as many entries as there are `sent` results. */
  lemma {:induction false} StoredCountMatchesSent(numbers: seq<string>, message: string,
      variables: Option<map<string, Bindings>>, replies: seq<ProviderReply>, freshIds: seq<string>)
    requires |replies| == |numbers| == |freshIds|
    ensures |NewMessages(numbers, message, variables, replies, freshIds)| ==
      |SentResults(Results(numbers, replies))|
  {
    if numbers != [] {
      var n := |numbers| - 1;
      StoredCountMatchesSent(numbers[..n], message, variables, replies[..n], freshIds[..n]);
      var results := Results(numbers, replies);
      assert results[..|results| - 1] == Results(numbers[..n], replies[..n]);
    }
  }

  /** The `sent` entries of a result list. */
  function SentResults(results: seq<SendResult>): seq<SendResult>
  {
    if results == [] then []
    else
      var n := |results| - 1;
      SentResults(results[..n]) + (if results[n].Sent? then [results[n]] else [])
  }

  // ---------------------------------------------------------------------
  // The module-level state and its handlers

  class Server {
    var messagesDB: seq<StoredMessage>
    var autoReplies: seq<Rule>

    /** Every stored message records a successful send. */
    ghost predicate Valid()
      reads this
    {
      forall k :: 0 <= k < |messagesDB| ==> messagesDB[k].status == "sent"
    }

    constructor ()
      ensures Valid()
      ensures messagesDB == [] && autoReplies == []
    {
      messagesDB := [];
      autoReplies := [];
    }

    /**
     * `POST /api/send`.  Besides the response, `calls` lists what was handed
     * to the provider, in order.
     */
    method Send(req: SendRequest, replies: seq<ProviderReply>, freshIds: seq<string>)
      returns (resp: SendResponse, calls: seq<Outbound>)
      requires Valid()
      requires req.numbers.Some? ==> |replies| == |req.numbers.value| == |freshIds|
      modifies this
      ensures Valid()
      ensures autoReplies == old(autoReplies)
      ensures !Sendable(req) ==> resp == BadRequest(MISSING_INPUT) && calls == [] && messagesDB == old(messagesDB)
      ensures Sendable(req) ==>
        var numbers, message := req.numbers.value, req.message.value;
        && resp == SendOk(Results(numbers, replies))
        && calls == Calls(numbers, message, req.variables)
        && messagesDB == old(messagesDB) + NewMessages(numbers, message, req.variables, replies, freshIds)
    {
      calls := [];
      if !Sendable(req) {
        resp := BadRequest(MISSING_INPUT);
        return;
      }
      var numbers, message := req.numbers.value, req.message.value;
      var results: seq<SendResult> := [];
      var i := 0;
      while i < |numbers|
        invariant 0 <= i <= |numbers|
        invariant results == Results(numbers[..i], replies[..i])
        invariant calls == Calls(numbers[..i], message, req.variables)
        invariant messagesDB == old(messagesDB) + NewMessages(numbers[..i], message, req.variables, replies[..i], freshIds[..i])
        invariant autoReplies == old(autoReplies)
        invariant Valid()
      {
        assert numbers[..i + 1][..i] == numbers[..i];
        assert replies[..i + 1][..i] == replies[..i];
        assert freshIds[..i + 1][..i] == freshIds[..i];
        var num := numbers[i];
        var text := message;
        if req.variables.Some? && num in req.variables.value {
          text := Render(message, req.variables.value[num]);
        }
        calls := calls + [Outbound(num, text)];
        match replies[i] {
          case ProviderOk(id) =>
            messagesDB := messagesDB + [StoredMessage(StoredId(id, freshIds[i]), num, "sent", text)];
            results := results + [Sent(num)];
          case ProviderError(e) =>
            results := results + [Failed(num, e)];
        }
        i := i + 1;
      }
      assert numbers[..|numbers|] == numbers;
      assert replies[..|replies|] == replies;
      assert freshIds[..|freshIds|] == freshIds;
      resp := SendOk(results);
    }

    /** `POST /api/auto-reply`: append one rule and answer with all rules. */
    method AddAutoReply(keyword: Option<string>, reply: Option<string>) returns (rules: seq<Rule>)
      requires Valid()
      modifies this
      ensures Valid()
      ensures autoReplies == old(autoReplies) + [Rule(keyword, reply)]
      ensures messagesDB == old(messagesDB)
      ensures rules == autoReplies
    {
      autoReplies := autoReplies + [Rule(keyword, reply)];
      rules := autoReplies;
    }

    /** `GET /api/dashboard`: both lists, unchanged. */
    method GetDashboard() returns (d: Dashboard)
      ensures d.messages == messagesDB && d.autoReplies == autoReplies
    {
      d := Dashboard(messagesDB, autoReplies);
    }
  }
}
