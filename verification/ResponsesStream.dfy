/** A streamed Responses call: the completed response alone decides what is returned, what was
    streamed before can only get it rejected (models/provider.py). */
module ResponsesStream {
  import opened Prelude
  import opened ChatStream

  datatype Item =
    | Call(callId: string, itemId: string, name: string, arguments: Option<string>)
    | Message(text: string)
    | OtherItem(id: nat)

  datatype Completion = Completion(status: string, outputText: string, output: seq<Item>)

  datatype Event =
    | TextDelta(text: string)
    | ItemSeen(done: bool, index: int, item: Item)
    | ArgumentsDelta(index: int, delta: string)
    | ArgumentsDone(index: int, name: string, arguments: Option<string>)
    | Completed(completion: Completion)
    | Incomplete
    | Failed
    | OtherEvent

  datatype Reply = Reply(content: Option<string>, toolCalls: seq<ToolCall>)

  // ----- the completed response -----

  function Or(a: string, b: string): string {
    if a != "" then a else b
  }

  function CallId(item: Item): string
    requires item.Call?
  {
    Or(item.callId, item.itemId)
  }

  /** The calls among the first `n` output items, in order, arguments parsed. */
  function CallsTo(parse: Parser, output: seq<Item>, n: nat): Option<seq<ToolCall>>
    requires n <= |output|
  {
    if n == 0 then Some([]) else
    var before, item := CallsTo(parse, output, n - 1), output[n - 1];
    if before.None? || !item.Call? then before
    else if item.arguments.None? || parse(item.arguments.value).None? then None
    else Some(before.value + [ToolCall(CallId(item), item.name, parse(item.arguments.value).value)])
  }

  function OutputText(output: seq<Item>, n: nat): string
    requires n <= |output|
  {
    if n == 0 then "" else OutputText(output, n - 1) + if output[n - 1].Message? then output[n - 1].text else ""
  }

  function TextOf(completion: Completion): string {
    Or(completion.outputText, OutputText(completion.output, |completion.output|))
  }

  // ----- the events before it -----

  function StreamedText(events: seq<Event>, n: nat): string
    requires n <= |events|
  {
    if n == 0 then "" else StreamedText(events, n - 1) + if events[n - 1].TextDelta? then events[n - 1].text else ""
  }

  /** The output index whose call an event is about. */
  function CallIndex(e: Event): Option<int> {
    match e
    case ItemSeen(_, index, item) => if item.Call? then Some(index) else None
    case ArgumentsDelta(index, _) => Some(index)
    case ArgumentsDone(index, _, _) => Some(index)
    case _ => None
  }

  /** What is kept of a streamed call after one more event about it. */
  function Observe(seen: Parts, e: Event): Parts {
    match e
    case ItemSeen(_, _, Call(callId, itemId, name, arguments)) =>
      Parts(Or(Or(callId, itemId), seen.id), Or(name, seen.name),
            if arguments.Some? && arguments.value != "" then arguments.value else seen.arguments)
    case ArgumentsDelta(_, delta) => Parts(seen.id, seen.name, seen.arguments + delta)
    case ArgumentsDone(_, name, arguments) =>
      Parts(seen.id, Or(name, seen.name), if arguments.Some? then arguments.value else seen.arguments)
    case _ => seen
  }

  function Observed(events: seq<Event>, n: nat, index: int): Parts
    requires n <= |events|
  {
    if n == 0 then NOTHING else
    var before := Observed(events, n - 1, index);
    if CallIndex(events[n - 1]) == Some(index) then Observe(before, events[n - 1]) else before
  }

  function Touched(events: seq<Event>, n: nat): set<int>
    requires n <= |events|
  {
    if n == 0 then {} else
    var index := CallIndex(events[n - 1]);
    Touched(events, n - 1) + if index.Some? then {index.value} else {}
  }

  /** The last item reported as done at an output index. */
  function LastDone(events: seq<Event>, n: nat, index: int): Option<Item>
    requires n <= |events|
  {
    if n == 0 then None
    else if events[n - 1].ItemSeen? && events[n - 1].done && events[n - 1].index == index then Some(events[n - 1].item)
    else LastDone(events, n - 1, index)
  }

  function Done(events: seq<Event>, n: nat): set<int>
    requires n <= |events|
  {
    if n == 0 then {} else
    Done(events, n - 1) + if events[n - 1].ItemSeen? && events[n - 1].done then {events[n - 1].index} else {}
  }

  // ----- the verdict -----

  /** An event that may come before the completed response. */
  predicate Harmless(native: bool, e: Event) {
    && !e.Completed? && !e.Incomplete? && !e.Failed?
    && (CallIndex(e).Some? ==> 0 <= CallIndex(e).value)
    && (native && e.ItemSeen? && e.done ==> 0 <= e.index)
  }

  /** The stream ends with the completed response and nothing before it raises. */
  predicate WellEnded(native: bool, events: seq<Event>) {
    && events != [] && events[|events| - 1].Completed? && events[|events| - 1].completion.status == "completed"
    && forall i :: 0 <= i < |events| - 1 ==> Harmless(native, events[i])
  }

  predicate SameArguments(parse: Parser, streamed: string, final: Option<string>) {
    final.Some? && parse(streamed).Some? && parse(streamed) == parse(final.value)
  }

  /** What was streamed about a call does not contradict the completed response. */
  predicate Agrees(parse: Parser, seen: Parts, output: seq<Item>, index: int) {
    && 0 <= index < |output| && output[index].Call?
    && (seen.id != "" ==> seen.id == CallId(output[index]))
    && (seen.name != "" ==> seen.name == output[index].name)
    && (seen.arguments != "" ==> SameArguments(parse, seen.arguments, output[index].arguments))
  }

  predicate NoConflict(parse: Parser, native: bool, events: seq<Event>, n: nat, output: seq<Item>)
    requires n <= |events|
  {
    && (forall i :: i in Touched(events, n) ==> Agrees(parse, Observed(events, n, i), output, i))
    && (native ==> forall i :: i in Done(events, n) ==> 0 <= i < |output| && LastDone(events, n, i) == Some(output[i]))
  }

  /** The reply of a whole call that ends with this completion. */
  function Whole(parse: Parser, completion: Completion): Option<Reply> {
    var calls := CallsTo(parse, completion.output, |completion.output|);
    if completion.status != "completed" || calls.None? then None
    else Some(Reply(NonEmpty(TextOf(completion)), calls.value))
  }

  /** The reply of a stream, if it is accepted. */
  function Streamed(parse: Parser, native: bool, events: seq<Event>): Option<Reply> {
    if !WellEnded(native, events) then None else
    var completion := events[|events| - 1].completion;
    var calls := CallsTo(parse, completion.output, |completion.output|);
    if calls.None? || !NoConflict(parse, native, events, |events|, completion.output) then None
    else Some(Reply(NonEmpty(Or(TextOf(completion), StreamedText(events, |events|))), calls.value))
  }

  /** The completed response is authoritative: an accepted stream returns the calls of the
      whole call, and its text too unless the completed response has none. */
  lemma CompletedIsAuthoritative(parse: Parser, native: bool, events: seq<Event>)
    requires Streamed(parse, native, events).Some?
    ensures var whole := Whole(parse, events[|events| - 1].completion);
      && whole.Some? && Streamed(parse, native, events).value.toolCalls == whole.value.toolCalls
      && (whole.value.content.Some? ==> Streamed(parse, native, events) == whole)
  {}

  // ----- streams that split the final arguments -----

  function Deltas(events: seq<Event>, n: nat, index: int): string
    requires n <= |events|
  {
    if n == 0 then "" else
    Deltas(events, n - 1, index)
      + if events[n - 1].ArgumentsDelta? && events[n - 1].index == index then events[n - 1].delta else ""
  }

  /** What a truthful stream says about a call: nothing false, and whole arguments only once
      all their pieces have been sent. */
  predicate Truthful(events: seq<Event>, i: nat, item: Item, index: int)
    requires i < |events|
  {
    CallIndex(events[i]) == Some(index) ==>
      && item.Call? && item.arguments.Some?
      && match events[i]
         case ItemSeen(_, _, Call(callId, itemId, name, arguments)) =>
           && (Or(callId, itemId) == "" || Or(callId, itemId) == CallId(item)) && (name == "" || name == item.name)
           && (arguments.Some? && arguments.value != "" ==> arguments == item.arguments && Deltas(events, i, index) == item.arguments.value)
         case ArgumentsDone(_, name, arguments) =>
           && (name == "" || name == item.name)
           && (arguments.Some? ==> arguments == item.arguments && Deltas(events, i, index) == item.arguments.value)
         case _ => true
  }

  /** The pieces sent for each call, in order, make up its final arguments. */
  ghost predicate SplitsInOrder(events: seq<Event>, output: seq<Item>) {
    && (forall i, index :: 0 <= i < |events| && CallIndex(events[i]) == Some(index) ==>
          0 <= index < |output| && Truthful(events, i, output[index], index))
    && (forall index :: index in Touched(events, |events|) && 0 <= index < |output| && output[index].Call? && output[index].arguments.Some? ==>
          Deltas(events, |events|, index) == output[index].arguments.value)
  }

  lemma {:induction false} CallsParse(parse: Parser, output: seq<Item>, n: nat, i: nat)
    requires i < n <= |output| && CallsTo(parse, output, n).Some? && output[i].Call?
    ensures output[i].arguments.Some? && parse(output[i].arguments.value).Some?
  {
    if i < n - 1 { CallsParse(parse, output, n - 1, i); }
  }

  lemma {:induction false} TouchedSomewhere(events: seq<Event>, n: nat, index: int)
    requires n <= |events| && index in Touched(events, n)
    ensures exists i :: 0 <= i < n && CallIndex(events[i]) == Some(index)
  {
    if CallIndex(events[n - 1]) != Some(index) { TouchedSomewhere(events, n - 1, index); }
  }

  lemma {:induction false} ObservedIsTruthful(events: seq<Event>, n: nat, output: seq<Item>, index: int)
    requires n <= |events| && SplitsInOrder(events, output) && 0 <= index < |output| && output[index].Call?
    ensures var seen := Observed(events, n, index);
      && seen.arguments == Deltas(events, n, index)
      && (seen.id == "" || seen.id == CallId(output[index])) && (seen.name == "" || seen.name == output[index].name)
  {
    if n > 0 {
      ObservedIsTruthful(events, n - 1, output, index);
      assert CallIndex(events[n - 1]) == Some(index) ==> Truthful(events, n - 1, output[index], index);
    }
  }

  /** A stream whose pieces split the final arguments in order, interleaved in any way, is
      accepted whenever the whole call is. */
  lemma SplitStreamsAreAccepted(parse: Parser, native: bool, events: seq<Event>)
    requires WellEnded(native, events) && Whole(parse, events[|events| - 1].completion).Some?
    requires SplitsInOrder(events, events[|events| - 1].completion.output)
    requires native ==> forall i :: i in Done(events, |events|) ==>
      0 <= i < |events[|events| - 1].completion.output| && LastDone(events, |events|, i) == Some(events[|events| - 1].completion.output[i])
    ensures Streamed(parse, native, events).Some?
  {
    var output, n := events[|events| - 1].completion.output, |events|;
    forall i | i in Touched(events, n) ensures Agrees(parse, Observed(events, n, i), output, i) {
      TouchedSomewhere(events, n, i);
      var j :| 0 <= j < n && CallIndex(events[j]) == Some(i);
      assert Truthful(events, j, output[i], i);
      ObservedIsTruthful(events, n, output, i);
      CallsParse(parse, output, |output|, i);
    }
  }

  // ----- the loop -----

  predicate Tracks(calls: map<int, Parts>, events: seq<Event>, n: nat)
    requires n <= |events|
  {
    calls.Keys == Touched(events, n) && forall k :: k in calls ==> calls[k] == Observed(events, n, k)
  }

  lemma {:induction false} UntouchedIsNothing(events: seq<Event>, n: nat, index: int)
    requires n <= |events| && index !in Touched(events, n)
    ensures Observed(events, n, index) == NOTHING
  {
    if n > 0 { UntouchedIsNothing(events, n - 1, index); }
  }

  method Track(calls: map<int, Parts>, ghost events: seq<Event>, ghost n: nat, e: Event) returns (result: map<int, Parts>)
    requires n < |events| && events[n] == e && Tracks(calls, events, n)
    ensures Tracks(result, events, n + 1)
  {
    var index := CallIndex(e);
    if index.None? { return calls; }
    var seen := if index.value in calls then calls[index.value] else NOTHING;
    if index.value !in calls { UntouchedIsNothing(events, n, index.value); }
    result := calls[index.value := Observe(seen, e)];
  }

  predicate TracksDone(items: map<int, Item>, events: seq<Event>, n: nat)
    requires n <= |events|
  {
    items.Keys == Done(events, n) && forall k :: k in items ==> Some(items[k]) == LastDone(events, n, k)
  }

  method CallsOf(parse: Parser, output: seq<Item>) returns (r: Option<seq<ToolCall>>)
    ensures r == CallsTo(parse, output, |output|)
  {
    var calls := [];
    for i := 0 to |output|
      invariant CallsTo(parse, output, i) == Some(calls)
    {
      var item := output[i];
      if item.Call? {
        if item.arguments.None? || parse(item.arguments.value).None? {
          NoCallsStay(parse, output, i + 1, |output|);
          return None;
        }
        calls := calls + [ToolCall(CallId(item), item.name, parse(item.arguments.value).value)];
      }
    }
    r := Some(calls);
  }

  lemma {:induction false} NoCallsStay(parse: Parser, output: seq<Item>, m: nat, n: nat)
    requires m <= n <= |output| && CallsTo(parse, output, m).None?
    ensures CallsTo(parse, output, n).None?
  {
    if m < n { NoCallsStay(parse, output, m, n - 1); }
  }

  /** The final checks on what was streamed. */
  method Validate(parse: Parser, native: bool, calls: map<int, Parts>, items: map<int, Item>, ghost events: seq<Event>, output: seq<Item>)
    returns (ok: bool)
    requires Tracks(calls, events, |events|) && TracksDone(items, events, |events|)
    ensures ok == NoConflict(parse, native, events, |events|, output)
  {
    ok := forall i :: i in calls ==> Agrees(parse, calls[i], output, i);
    if ok && native {
      ok := forall i :: i in items ==> 0 <= i < |output| && items[i] == output[i];
    }
  }

  /** The streaming call; `None` stands for the raised protocol error. */
  method StreamResponses(parse: Parser, native: bool, events: seq<Event>) returns (r: Option<Reply>, pieces: seq<string>)
    ensures r == Streamed(parse, native, events)
    ensures exists n :: 0 <= n <= |events| && Joined(pieces) == StreamedText(events, n) && (r.Some? ==> n == |events|)
    ensures "" !in pieces
  {
    pieces := [];
    var calls, items, final: Option<Completion> := map[], map[], None;
    for i := 0 to |events|
      invariant Tracks(calls, events, i) && TracksDone(items, events, i)
      invariant Joined(pieces) == StreamedText(events, i) && "" !in pieces
      invariant final.None? ==> forall j :: 0 <= j < i ==> Harmless(native, events[j])
      invariant final.Some? ==> i > 0 && events[i - 1] == Completed(final.value) && final.value.status == "completed"
      invariant final.Some? ==> forall j :: 0 <= j < i - 1 ==> Harmless(native, events[j])
    {
      var e := events[i];
      if final.Some? { return None, pieces; }
      if e.TextDelta? && e.text != "" {
        JoinedOn(pieces, e.text);
        pieces := pieces + [e.text];
      }
      if e.Completed? {
        if e.completion.status != "completed" { return None, pieces; }
        final := Some(e.completion);
      } else if !Harmless(native, e) {
        return None, pieces;
      }
      calls := Track(calls, events, i, e);
      if e.ItemSeen? && e.done { items := items[e.index := e.item]; }
    }
    if final.None? { return None, pieces; }
    var output := final.value.output;
    var list := CallsOf(parse, output);
    var ok := Validate(parse, native, calls, items, events, output);
    if list.None? || !ok { return None, pieces; }
    r := Some(Reply(NonEmpty(Or(TextOf(final.value), Joined(pieces))), list.value));
  }
}
