/** Reassembly of a streamed chat completion, against the same completion received whole
    (models/provider.py). */
module ChatStream {
  import opened Prelude

  type Args(==)

  // Parsing and checking a tool call's argument text.
  type Parser = string -> Option<Args>

  datatype Fragment = Fragment(index: int, id: string, name: string, arguments: string)

  datatype Chunk =
    | UsageOnly
    | Choice(content: string, calls: seq<Fragment>, finish: Option<string>)

  datatype Parts = Parts(id: string, name: string, arguments: string)

  datatype ToolCall = ToolCall(id: string, name: string, arguments: Args)

  datatype Response = Response(content: Option<string>, toolCalls: seq<ToolCall>)

  datatype Error = AfterTerminal | NotComplete(reason: string) | BadIndex | NoTerminal | BadArguments

  const NOTHING := Parts("", "", "")

  predicate Complete(reason: string) {
    reason == "stop" || reason == "tool_calls"
  }

  // ----- the completion received whole -----

  datatype Message = Message(content: string, calls: seq<Parts>)

  function NonEmpty(content: string): Option<string> {
    if content == "" then None else Some(content)
  }

  /** The first `n` calls with their arguments parsed. */
  function ToolCalls(parse: Parser, calls: seq<Parts>, n: nat): Result<seq<ToolCall>, Error>
    requires n <= |calls|
  {
    if n == 0 then Ok([]) else
    match ToolCalls(parse, calls, n - 1)
    case Err(e) => Err(e)
    case Ok(before) =>
      match parse(calls[n - 1].arguments)
      case None => Err(BadArguments)
      case Some(arguments) => Ok(before + [ToolCall(calls[n - 1].id, calls[n - 1].name, arguments)])
  }

  function Answer(parse: Parser, message: Message): Result<Response, Error> {
    match ToolCalls(parse, message.calls, |message.calls|)
    case Err(e) => Err(e)
    case Ok(calls) => Ok(Response(NonEmpty(message.content), calls))
  }

  function Chat(parse: Parser, message: Message, finish: string): Result<Response, Error> {
    if !Complete(finish) then Err(NotComplete(finish)) else Answer(parse, message)
  }

  // ----- what the first n chunks of a stream say -----

  function ContentTo(stream: seq<Chunk>, n: nat): string
    requires n <= |stream|
  {
    if n == 0 then "" else ContentTo(stream, n - 1) + if stream[n - 1].Choice? then stream[n - 1].content else ""
  }

  function Plus(a: Parts, f: Fragment): Parts {
    Parts(a.id + f.id, a.name + f.name, a.arguments + f.arguments)
  }

  /** The fragments of one index, in order, glued on. */
  function Glued(before: Parts, calls: seq<Fragment>, n: nat, index: int): Parts
    requires n <= |calls|
  {
    if n == 0 then before else
    var parts := Glued(before, calls, n - 1, index);
    if calls[n - 1].index == index then Plus(parts, calls[n - 1]) else parts
  }

  function PartsTo(stream: seq<Chunk>, n: nat, index: int): Parts
    requires n <= |stream|
  {
    if n == 0 then NOTHING else
    var before := PartsTo(stream, n - 1, index);
    if stream[n - 1].Choice? then Glued(before, stream[n - 1].calls, |stream[n - 1].calls|, index) else before
  }

  function Indices(calls: seq<Fragment>): set<int> {
    set f | f in calls :: f.index
  }

  function IndicesTo(stream: seq<Chunk>, n: nat): set<int>
    requires n <= |stream|
  {
    if n == 0 then {} else IndicesTo(stream, n - 1) + if stream[n - 1].Choice? then Indices(stream[n - 1].calls) else {}
  }

  predicate Increasing(keys: seq<int>) {
    forall i, j :: 0 <= i < j < |keys| ==> keys[i] < keys[j]
  }

  function Elements(keys: seq<int>): set<int> {
    set k | k in keys
  }

  /** The only finish reason of the stream, on its last choice. */
  predicate FinishesWith(stream: seq<Chunk>, finish: string) {
    exists t :: 0 <= t < |stream| && stream[t].Choice? && stream[t].finish == Some(finish)
      && forall i :: 0 <= i < |stream| && i != t && stream[i].Choice? ==> i < t && stream[i].finish == None
  }

  /** The stream is the message cut into pieces: it finishes once, at the end, the contents add
      up, and the calls, by increasing index, are glued from their fragments. */
  predicate Cuts(stream: seq<Chunk>, message: Message, finish: string, keys: seq<int>) {
    && FinishesWith(stream, finish)
    && ContentTo(stream, |stream|) == message.content
    && Increasing(keys) && Elements(keys) == IndicesTo(stream, |stream|) && (forall k :: k in keys ==> 0 <= k)
    && |keys| == |message.calls| && (forall i :: 0 <= i < |keys| ==> message.calls[i] == PartsTo(stream, |stream|, keys[i]))
  }

  // ----- sorting the indices -----

  lemma SomeElement(s: set<int>)
    ensures s == {} || exists k :: k in s
  {
    if forall k :: k !in s { assert s == {}; }
  }

  lemma {:induction false} HasLeast(s: set<int>)
    requires s != {}
    ensures exists m: int :: m in s && forall x: int :: x in s ==> m <= x
    decreases |s|
  {
    SomeElement(s);
    var k :| k in s;
    var rest := s - {k};
    assert forall x :: x in s ==> x == k || x in rest;
    if rest != {} {
      HasLeast(rest);
      var m :| m in rest && forall x :: x in rest ==> m <= x;
      var least := Min(k, m);
      assert least in s && forall x :: x in s ==> least <= x;
    } else {
      assert k in s && forall x :: x in s ==> k <= x;
    }
  }

  function Least(s: set<int>): (m: int)
    requires s != {}
    ensures m in s && forall x :: x in s ==> m <= x
  {
    HasLeast(s);
    var m :| m in s && forall x :: x in s ==> m <= x;
    m
  }

  function Sorted(s: set<int>): (keys: seq<int>)
    ensures Elements(keys) == s
    decreases |s|
  {
    if s == {} then [] else
    var m := Least(s);
    var rest := Sorted(s - {m});
    assert Elements([m] + rest) == {m} + Elements(rest);
    [m] + rest
  }

  lemma {:induction false} SortedIncreases(s: set<int>)
    ensures Increasing(Sorted(s))
    decreases |s|
  {
    if s != {} {
      var m := Least(s);
      SortedIncreases(s - {m});
      var rest := Sorted(s - {m});
      forall i | 0 <= i < |rest| ensures m < rest[i] { assert rest[i] in Elements(rest); }
    }
  }

  /** Only one sequence lists a set in increasing order. */
  lemma {:induction false} IncreasingIsSorted(keys: seq<int>)
    requires Increasing(keys)
    ensures keys == Sorted(Elements(keys))
  {
    var s := Elements(keys);
    if keys != [] {
      assert keys[0] in s;
      var m := Least(s);
      assert forall x :: x in s ==> keys[0] <= x;
      assert m == keys[0];
      assert keys == [m] + keys[1..];
      assert Elements(keys[1..]) == s - {m} by {
        assert forall i :: 0 <= i < |keys[1..]| ==> keys[1..][i] == keys[i + 1];
      }
      IncreasingIsSorted(keys[1..]);
    }
  }

  // ----- the loop -----

  predicate EndedBefore(stream: seq<Chunk>, n: nat)
    requires n <= |stream|
  {
    exists i :: 0 <= i < n && stream[i].Choice? && stream[i].finish.Some?
  }

  /** What the loop finds wrong with one chunk, if anything. */
  function Fault(stream: seq<Chunk>, i: nat): Option<Error>
    requires i < |stream|
  {
    if stream[i].UsageOnly? then None
    else if EndedBefore(stream, i) then Some(AfterTerminal)
    else if stream[i].finish.Some? && !Complete(stream[i].finish.value) then Some(NotComplete(stream[i].finish.value))
    else if exists f :: f in stream[i].calls && f.index < 0 then Some(BadIndex)
    else None
  }

  /** The first fault among the first `n` chunks. */
  function FirstFault(stream: seq<Chunk>, n: nat): Option<Error>
    requires n <= |stream|
  {
    if n == 0 then None else
    var before := FirstFault(stream, n - 1);
    if before.Some? then before else Fault(stream, n - 1)
  }

  /** The message a stream adds up to. */
  function Assembled(stream: seq<Chunk>): Message {
    var keys := Sorted(IndicesTo(stream, |stream|));
    Message(ContentTo(stream, |stream|), seq(|keys|, i requires 0 <= i < |keys| => PartsTo(stream, |stream|, keys[i])))
  }

  /** The outcome of a stream: its first fault, or its missing end, or the assembled message. */
  function Streamed(parse: Parser, stream: seq<Chunk>): Result<Response, Error> {
    var fault := FirstFault(stream, |stream|);
    if fault.Some? then Err(fault.value)
    else if !EndedBefore(stream, |stream|) then Err(NoTerminal)
    else Answer(parse, Assembled(stream))
  }

  function Joined(pieces: seq<string>): string {
    if pieces == [] then "" else Joined(pieces[..|pieces| - 1]) + pieces[|pieces| - 1]
  }

  lemma JoinedOn(pieces: seq<string>, piece: string)
    ensures Joined(pieces + [piece]) == Joined(pieces) + piece
  {
    assert (pieces + [piece])[..|pieces|] == pieces;
  }

  /** Every index seen so far with what was glued for it. */
  predicate Buffers(streamed: map<int, Parts>, stream: seq<Chunk>, n: nat)
    requires n <= |stream|
  {
    streamed.Keys == IndicesTo(stream, n) && forall k :: k in streamed ==> 0 <= k && streamed[k] == PartsTo(stream, n, k)
  }

  lemma {:induction false} UnseenIsNothing(stream: seq<Chunk>, n: nat, k: int)
    requires n <= |stream| && k !in IndicesTo(stream, n)
    ensures PartsTo(stream, n, k) == NOTHING
  {
    if n > 0 {
      UnseenIsNothing(stream, n - 1, k);
      if stream[n - 1].Choice? { UnseenStays(NOTHING, stream[n - 1].calls, |stream[n - 1].calls|, k); }
    }
  }

  lemma {:induction false} UnseenStays(before: Parts, calls: seq<Fragment>, n: nat, k: int)
    requires n <= |calls| && forall i :: 0 <= i < n ==> calls[i].index != k
    ensures Glued(before, calls, n, k) == before
  {
    if n > 0 { UnseenStays(before, calls, n - 1, k); }
  }

  /** The inner loop: the fragments of one chunk go to the buffers of their indices. */
  method AddFragments(streamed: map<int, Parts>, calls: seq<Fragment>) returns (bad: bool, result: map<int, Parts>)
    ensures bad == (exists f :: f in calls && f.index < 0)
    ensures !bad ==> result.Keys == streamed.Keys + Indices(calls)
    ensures !bad ==> forall k :: k in result ==>
      result[k] == Glued(if k in streamed then streamed[k] else NOTHING, calls, |calls|, k)
  {
    bad, result := false, streamed;
    for i := 0 to |calls|
      invariant forall j :: 0 <= j < i ==> calls[j].index >= 0
      invariant result.Keys == streamed.Keys + set j | 0 <= j < i :: calls[j].index
      invariant forall k :: k in result ==> result[k] == Glued(if k in streamed then streamed[k] else NOTHING, calls, i, k)
    {
      var f := calls[i];
      if f.index < 0 {
        assert f in calls;
        return true, streamed;
      }
      var item := if f.index in result then result[f.index] else NOTHING;
      if f.index !in result { UnseenStays(NOTHING, calls, i, f.index); }
      result := result[f.index := Plus(item, f)];
    }
    assert Indices(calls) == set j | 0 <= j < |calls| :: calls[j].index;
  }

  lemma BuffersOn(streamed: map<int, Parts>, stream: seq<Chunk>, n: nat, result: map<int, Parts>)
    requires n < |stream| && stream[n].Choice? && Buffers(streamed, stream, n)
    requires forall f :: f in stream[n].calls ==> f.index >= 0
    requires result.Keys == streamed.Keys + Indices(stream[n].calls)
    requires forall k :: k in result ==>
      result[k] == Glued(if k in streamed then streamed[k] else NOTHING, stream[n].calls, |stream[n].calls|, k)
    ensures Buffers(result, stream, n + 1)
  {
    forall k | k in result ensures 0 <= k && result[k] == PartsTo(stream, n + 1, k) {
      if k !in streamed { UnseenIsNothing(stream, n, k); }
    }
  }

  /** The calls in the order of their indices, arguments parsed. */
  method BuildCalls(parse: Parser, streamed: map<int, Parts>) returns (r: Result<seq<ToolCall>, Error>)
    ensures var keys := Sorted(streamed.Keys);
      r == ToolCalls(parse, seq(|keys|, i requires 0 <= i < |keys| && keys[i] in streamed => streamed[keys[i]]), |keys|)
  {
    var keys := Sorted(streamed.Keys);
    assert forall i :: 0 <= i < |keys| ==> keys[i] in Elements(keys);
    var parts := seq(|keys|, i requires 0 <= i < |keys| && keys[i] in streamed => streamed[keys[i]]);
    var calls := [];
    for i := 0 to |keys|
      invariant ToolCalls(parse, parts, i) == Ok(calls)
    {
      var item := streamed[keys[i]];
      match parse(item.arguments)
      case None =>
        FailureStays(parse, parts, i + 1, |keys|);
        return Err(BadArguments);
      case Some(arguments) =>
        calls := calls + [ToolCall(item.id, item.name, arguments)];
    }
    r := Ok(calls);
  }

  lemma {:induction false} FailureStays(parse: Parser, calls: seq<Parts>, m: nat, n: nat)
    requires m <= n <= |calls| && ToolCalls(parse, calls, m).Err?
    ensures ToolCalls(parse, calls, n) == ToolCalls(parse, calls, m)
  {
    if m < n { FailureStays(parse, calls, m, n - 1); }
  }

  lemma {:induction false} FirstFaultStays(stream: seq<Chunk>, m: nat, n: nat)
    requires m <= n <= |stream| && FirstFault(stream, m).Some?
    ensures FirstFault(stream, n) == FirstFault(stream, m)
  {
    if m < n { FirstFaultStays(stream, m, n - 1); }
  }

  /** The streaming call: `pieces` is what was handed to `on_text`, one non-empty piece a chunk. */
  method StreamChat(parse: Parser, stream: seq<Chunk>) returns (r: Result<Response, Error>, pieces: seq<string>)
    ensures r == Streamed(parse, stream)
    ensures "" !in pieces
    ensures exists n :: 0 <= n <= |stream| && Joined(pieces) == ContentTo(stream, n) && (r.Ok? ==> n == |stream|)
  {
    pieces := [];
    var content, streamed, terminal := "", map[], false;
    for i := 0 to |stream|
      invariant FirstFault(stream, i).None? && terminal == EndedBefore(stream, i) && Buffers(streamed, stream, i)
      invariant content == Joined(pieces) == ContentTo(stream, i) && "" !in pieces
    {
      var chunk := stream[i];
      if chunk.UsageOnly? { continue; }
      FirstFaultHere(stream, i);
      if terminal { return Err(AfterTerminal), pieces; }
      if chunk.finish.Some? && !Complete(chunk.finish.value) { return Err(NotComplete(chunk.finish.value)), pieces; }
      if chunk.content != "" {
        JoinedOn(pieces, chunk.content);
        content := content + chunk.content;
        pieces := pieces + [chunk.content];
      }
      var bad, result := AddFragments(streamed, chunk.calls);
      if bad { return Err(BadIndex), pieces; }
      BuffersOn(streamed, stream, i, result);
      streamed := result;
      if chunk.finish.Some? { terminal := true; }
    }
    if !terminal { return Err(NoTerminal), pieces; }
    var calls := BuildCalls(parse, streamed);
    r := Finished(parse, stream, streamed, content, calls);
  }

  method Finished(parse: Parser, stream: seq<Chunk>, streamed: map<int, Parts>, content: string, calls: Result<seq<ToolCall>, Error>)
    returns (r: Result<Response, Error>)
    requires Buffers(streamed, stream, |stream|) && content == ContentTo(stream, |stream|)
    requires FirstFault(stream, |stream|).None? && EndedBefore(stream, |stream|)
    requires var keys := Sorted(streamed.Keys);
      calls == ToolCalls(parse, seq(|keys|, i requires 0 <= i < |keys| && keys[i] in streamed => streamed[keys[i]]), |keys|)
    ensures r == Streamed(parse, stream)
  {
    ghost var keys := Sorted(streamed.Keys);
    assert forall i :: 0 <= i < |keys| ==> keys[i] in Elements(keys);
    assert seq(|keys|, i requires 0 <= i < |keys| && keys[i] in streamed => streamed[keys[i]]) == Assembled(stream).calls;
    r := match calls
      case Err(e) => Err(e)
      case Ok(list) => Ok(Response(NonEmpty(content), list));
  }

  lemma FirstFaultHere(stream: seq<Chunk>, i: nat)
    requires i < |stream| && FirstFault(stream, i).None?
    ensures Fault(stream, i).Some? ==> FirstFault(stream, |stream|) == Fault(stream, i)
  {
    if Fault(stream, i).Some? { FirstFaultStays(stream, i + 1, |stream|); }
  }

  // ----- stream and whole agree -----

  /** A finished stream's calls are those of the message it cuts. */
  lemma CutsAssemble(stream: seq<Chunk>, message: Message, finish: string, keys: seq<int>)
    requires Cuts(stream, message, finish, keys)
    ensures Assembled(stream) == message
  {
    IncreasingIsSorted(keys);
    assert Assembled(stream).calls == message.calls;
  }

  lemma {:induction false} GoodIndicesUpTo(stream: seq<Chunk>, m: nat, n: nat, f: Fragment)
    requires m < n <= |stream| && stream[m].Choice? && f in stream[m].calls
    ensures f.index in IndicesTo(stream, n)
  {
    if m < n - 1 { GoodIndicesUpTo(stream, m, n - 1, f); }
  }

  lemma {:induction false} CleanUpTo(stream: seq<Chunk>, t: nat, n: nat, finish: string)
    requires t < |stream| && stream[t].Choice? && stream[t].finish == Some(finish) && n <= |stream|
    requires forall i :: 0 <= i < |stream| && i != t && stream[i].Choice? ==> i < t && stream[i].finish == None
    requires forall k :: k in IndicesTo(stream, |stream|) ==> 0 <= k
    ensures FirstFault(stream, n) == if t < n && !Complete(finish) then Some(NotComplete(finish)) else None
  {
    if n > 0 {
      CleanUpTo(stream, t, n - 1, finish);
      if stream[n - 1].Choice? {
        forall f | f in stream[n - 1].calls ensures 0 <= f.index { GoodIndicesUpTo(stream, n - 1, |stream|, f); }
        assert EndedBefore(stream, n - 1) ==> t < n - 1;
      }
    }
  }

  /** For every way of cutting a message into a stream, with the fragments of its calls
      interleaved and usage chunks anywhere, streaming gives what the whole message gives. */
  lemma StreamEqualsWhole(parse: Parser, stream: seq<Chunk>, message: Message, finish: string, keys: seq<int>)
    requires Cuts(stream, message, finish, keys)
    ensures Streamed(parse, stream) == Chat(parse, message, finish)
  {
    CutsAssemble(stream, message, finish, keys);
    var t :| 0 <= t < |stream| && stream[t].Choice? && stream[t].finish == Some(finish)
      && forall i :: 0 <= i < |stream| && i != t && stream[i].Choice? ==> i < t && stream[i].finish == None;
    assert forall k :: k in IndicesTo(stream, |stream|) ==> k in Elements(keys);
    CleanUpTo(stream, t, |stream|, finish);
    assert EndedBefore(stream, |stream|);
  }

  lemma {:induction false} NoFaultMeans(stream: seq<Chunk>, n: nat, i: nat)
    requires i < n <= |stream| && FirstFault(stream, n).None?
    ensures Fault(stream, i).None?
  {
    if i < n - 1 { NoFaultMeans(stream, n - 1, i); }
  }

  lemma {:induction false} IndicesAreGood(stream: seq<Chunk>, n: nat, k: int)
    requires n <= |stream| && FirstFault(stream, n).None? && k in IndicesTo(stream, n)
    ensures 0 <= k
  {
    if k in IndicesTo(stream, n - 1) { IndicesAreGood(stream, n - 1, k); }
  }

  lemma OneEnd(stream: seq<Chunk>, t: nat, i: nat)
    requires t < |stream| && i < |stream| && i != t && stream[t].Choice? && stream[i].Choice? && stream[t].finish.Some?
    requires Fault(stream, t).None? && Fault(stream, i).None?
    ensures i < t && stream[i].finish == None
  {}

  /** Only cuts of complete messages are accepted: whatever a stream returns is what the whole
      call returns for the message the stream cuts. */
  lemma AcceptedStreamsAreCuts(parse: Parser, stream: seq<Chunk>)
    requires Streamed(parse, stream).Ok?
    ensures exists finish ::
      && Complete(finish) && Cuts(stream, Assembled(stream), finish, Sorted(IndicesTo(stream, |stream|)))
      && Chat(parse, Assembled(stream), finish) == Streamed(parse, stream)
  {
    var t :| 0 <= t < |stream| && stream[t].Choice? && stream[t].finish.Some?;
    var keys, finish := Sorted(IndicesTo(stream, |stream|)), stream[t].finish.value;
    NoFaultMeans(stream, |stream|, t);
    forall i | 0 <= i < |stream| && i != t && stream[i].Choice? ensures i < t && stream[i].finish == None {
      NoFaultMeans(stream, |stream|, i);
      OneEnd(stream, t, i);
    }
    SortedIncreases(IndicesTo(stream, |stream|));
    forall k | k in keys ensures 0 <= k {
      assert k in Elements(keys);
      IndicesAreGood(stream, |stream|, k);
    }
    assert Cuts(stream, Assembled(stream), finish, keys);
  }

  /** A stream without a finish reason, or with a choice after one, is rejected. */
  lemma BrokenEndsAreRejected(parse: Parser, stream: seq<Chunk>)
    requires !EndedBefore(stream, |stream|) || exists j :: 0 <= j < |stream| && stream[j].Choice? && EndedBefore(stream, j)
    ensures Streamed(parse, stream).Err?
  {
    if EndedBefore(stream, |stream|) {
      var j :| 0 <= j < |stream| && stream[j].Choice? && EndedBefore(stream, j);
      FaultStays(stream, j, |stream|);
    }
  }

  lemma {:induction false} FaultStays(stream: seq<Chunk>, j: nat, n: nat)
    requires j < n <= |stream| && Fault(stream, j).Some?
    ensures FirstFault(stream, n).Some?
  {
    if j < n - 1 { FaultStays(stream, j, n - 1); }
  }
}
