/** Optimistic commits of a session's native context window (models/context_state.py). */
module NativeContext {
  import opened Prelude

  // An item needs a type or a role, and a compaction its opaque content.
  datatype Item = Item(typed: bool, role: bool, compaction: bool, opaqueContent: bool, body: nat)

  predicate ItemOk(item: Item) {
    (item.typed || item.role) && (item.compaction ==> item.opaqueContent)
  }

  predicate ItemsOk(items: seq<Item>) {
    forall i :: 0 <= i < |items| ==> ItemOk(items[i])
  }

  datatype Lineage = Lineage(sessionId: nat, model: nat, provider: nat, workspace: nat)

  datatype State = State(
    lineage: Lineage, items: seq<Item>, cursor: nat, revision: nat, expected: nat, responseId: nat, source: nat)

  // What the session metadata holds under the native-context key.
  datatype Stored = Missing | Window(state: State) | Garbage(id: nat)

  // A digest of the stored value; different values are taken to have different digests.
  type Digest = Stored -> nat

  ghost predicate Injective(digest: Digest) {
    forall a, b :: digest(a) == digest(b) ==> a == b
  }

  datatype Mode = Append | Replace | UnknownMode

  datatype Native = Native(model: nat, output: seq<Item>, mode: Mode, responseId: nat)

  datatype Transaction = Transaction(
    lineage: Lineage, items: seq<Item>, cursor: nat, baseDigest: nat, revision: nat, source: nat)

  /** The window usable by a lineage: stored for exactly that lineage, and well formed. */
  function Load(stored: Stored, lineage: Lineage): Option<State> {
    if stored.Window? && stored.state.lineage == lineage && ItemsOk(stored.state.items) then Some(stored.state) else None
  }

  function LoadedItems(stored: Stored, lineage: Lineage): seq<Item> {
    if Load(stored, lineage).Some? then Load(stored, lineage).value.items else []
  }

  function LoadedRevision(stored: Stored, lineage: Lineage): nat {
    if Load(stored, lineage).Some? then Load(stored, lineage).value.revision else 0
  }

  /** The inputs of one call. */
  datatype Call = Call(lineage: Lineage, newItems: seq<Item>, cursor: int, source: nat)

  function Prepared(digest: Digest, stored: Stored, call: Call): Transaction {
    Transaction(call.lineage, LoadedItems(stored, call.lineage) + call.newItems, Max(0, call.cursor), digest(stored),
                LoadedRevision(stored, call.lineage), call.source)
  }

  /** The response is one that may be committed for this lineage. */
  predicate Committable(lineage: Lineage, native: Option<Native>) {
    native.Some? && native.value.model == lineage.model && ItemsOk(native.value.output) && !native.value.mode.UnknownMode?
  }

  function Committed(transaction: Transaction, native: Native, expected: nat): State {
    State(transaction.lineage, if native.mode.Replace? then native.output else transaction.items + native.output,
          transaction.cursor, transaction.revision + 1, expected, native.responseId, transaction.source)
  }

  class Session {
    const id: nat
    const digest: Digest
    var stored: Stored

    constructor (id: nat, digest: Digest, stored: Stored)
      ensures this.id == id && this.digest == digest && this.stored == stored
    {
      this.id, this.digest, this.stored := id, digest, stored;
    }

    /** Reads the session only; `None` stands for the raised conflict or value error. */
    method PrepareNativeContext(call: Call) returns (r: Option<Transaction>)
      ensures r == if call.lineage.sessionId == id && ItemsOk(call.newItems) then Some(Prepared(digest, stored, call)) else None
    {
      if id != call.lineage.sessionId || !ItemsOk(call.newItems) { return None; }
      var state := Load(stored, call.lineage);
      r := Some(Transaction(call.lineage, (if state.Some? then state.value.items else []) + call.newItems, Max(0, call.cursor),
                            digest(stored), if state.Some? then state.value.revision else 0, call.source));
    }

    /** Commits if the stored value still has the transaction's base digest, else changes nothing. */
    method CommitNativeContext(transaction: Transaction, native: Option<Native>, expected: nat) returns (r: Option<State>)
      requires ItemsOk(transaction.items)
      modifies this
      ensures r.Some? ==
        (id == transaction.lineage.sessionId && digest(old(stored)) == transaction.baseDigest && Committable(transaction.lineage, native))
      ensures r.Some? ==> r == Some(Committed(transaction, native.value, expected)) == Load(stored, transaction.lineage)
      ensures stored == if r.Some? then Window(r.value) else old(stored)
    {
      r := None;
      if id != transaction.lineage.sessionId || digest(stored) != transaction.baseDigest { return; }
      if native.None? || native.value.model != transaction.lineage.model || !ItemsOk(native.value.output) { return; }
      if native.value.mode.UnknownMode? { return; }
      var items := if native.value.mode.Replace? then native.value.output else transaction.items + native.value.output;
      stored := Window(State(transaction.lineage, items, transaction.cursor, transaction.revision + 1, expected,
                             native.value.responseId, transaction.source));
      r := Load(stored, transaction.lineage);
    }
  }

  // ----- interleaved calls -----

  /** A completed call: its inputs and what its response committed. */
  datatype Done = Done(call: Call, native: Native, expected: nat)

  datatype World = World(stored: Stored, open: map<nat, (Call, Transaction)>, log: seq<Done>)

  datatype Step = Prepare(k: nat, call: Call) | Commit(k: nat, native: Option<Native>, expected: nat) | Abandon(k: nat)

  ghost predicate Next(digest: Digest, id: nat, s: World, step: Step, s': World) {
    match step
    case Prepare(k, call) =>
      && k !in s.open && call.lineage.sessionId == id && ItemsOk(call.newItems)
      && s' == s.(open := s.open[k := (call, Prepared(digest, s.stored, call))])
    case Commit(k, native, expected) =>
      && k in s.open
      && var (call, transaction) := s.open[k];
         if digest(s.stored) == transaction.baseDigest && Committable(transaction.lineage, native) then
           s' == World(Window(Committed(transaction, native.value, expected)), s.open - {k}, s.log + [Done(call, native.value, expected)])
         else s' == s.(open := s.open - {k})
    case Abandon(k) => s' == s.(open := s.open - {k})
  }

  ghost predicate Run(digest: Digest, id: nat, worlds: seq<World>, steps: seq<Step>) {
    && |worlds| == |steps| + 1 && worlds[0].open == map[] && worlds[0].log == []
    && forall i :: 0 <= i < |steps| ==> Next(digest, id, worlds[i], steps[i], worlds[i + 1])
  }

  /** One call run alone: prepare and commit with nothing in between. */
  function Alone(digest: Digest, stored: Stored, done: Done): Stored {
    Window(Committed(Prepared(digest, stored, done.call), done.native, done.expected))
  }

  /** The calls of a log run one after the other. */
  function Serial(digest: Digest, stored: Stored, log: seq<Done>, n: nat): Stored
    requires n <= |log|
  {
    if n == 0 then stored else Alone(digest, Serial(digest, stored, log, n - 1), log[n - 1])
  }

  /** The transaction was prepared for the call, from some stored value. */
  ghost predicate Honest(digest: Digest, call: Call, transaction: Transaction) {
    exists stored :: digest(stored) == transaction.baseDigest && transaction == Prepared(digest, stored, call)
  }

  ghost predicate OpenInv(digest: Digest, s: World) {
    forall k :: k in s.open ==> Honest(digest, s.open[k].0, s.open[k].1)
  }

  lemma SerialPrefix(digest: Digest, stored: Stored, log: seq<Done>, done: Done, n: nat)
    requires n <= |log|
    ensures Serial(digest, stored, log + [done], n) == Serial(digest, stored, log, n)
  {
    if n > 0 { SerialPrefix(digest, stored, log, done, n - 1); }
  }

  lemma PreparedIsHonest(digest: Digest, stored: Stored, call: Call)
    ensures Honest(digest, call, Prepared(digest, stored, call))
  {
    assert digest(stored) == Prepared(digest, stored, call).baseDigest;
  }

  lemma OpenStaysHonest(digest: Digest, id: nat, s: World, step: Step, s': World)
    requires OpenInv(digest, s) && Next(digest, id, s, step, s')
    ensures OpenInv(digest, s')
  {
    if step.Prepare? { PreparedIsHonest(digest, s.stored, step.call); }
  }

  /** A transaction that still has the stored value's digest is the one a call prepared now
      would get. */
  lemma PreparedAtCommitTime(digest: Digest, stored: Stored, call: Call, transaction: Transaction)
    requires Injective(digest) && Honest(digest, call, transaction) && digest(stored) == transaction.baseDigest
    ensures transaction == Prepared(digest, stored, call)
  {
    var base :| digest(base) == transaction.baseDigest && transaction == Prepared(digest, base, call);
    assert base == stored;
  }

  lemma CommitIsAlone(digest: Digest, s: World, k: nat, native: Option<Native>, expected: nat)
    requires Injective(digest) && OpenInv(digest, s) && k in s.open && digest(s.stored) == s.open[k].1.baseDigest && native.Some?
    ensures Window(Committed(s.open[k].1, native.value, expected)) == Alone(digest, s.stored, Done(s.open[k].0, native.value, expected))
  {
    PreparedAtCommitTime(digest, s.stored, s.open[k].0, s.open[k].1);
  }

  predicate Lands(digest: Digest, s: World, step: Step) {
    step.Commit? && step.k in s.open && digest(s.stored) == s.open[step.k].1.baseDigest && Committable(s.open[step.k].1.lineage, step.native)
  }

  lemma StepEffect(digest: Digest, id: nat, s: World, step: Step, s': World)
    requires Next(digest, id, s, step, s')
    ensures !Lands(digest, s, step) ==> s'.stored == s.stored && s'.log == s.log
    ensures Lands(digest, s, step) ==>
      && s'.stored == Window(Committed(s.open[step.k].1, step.native.value, step.expected))
      && s'.log == s.log + [Done(s.open[step.k].0, step.native.value, step.expected)]
  {}

  lemma SerialOn(digest: Digest, first: Stored, stored: Stored, log: seq<Done>, done: Done)
    requires stored == Serial(digest, first, log, |log|)
    ensures Alone(digest, stored, done) == Serial(digest, first, log + [done], |log + [done]|)
  {
    SerialPrefix(digest, first, log, done, |log|);
  }

  lemma StepIsSerial(digest: Digest, id: nat, first: Stored, s: World, step: Step, s': World)
    requires Injective(digest) && OpenInv(digest, s) && Next(digest, id, s, step, s')
    requires s.stored == Serial(digest, first, s.log, |s.log|)
    ensures s'.stored == Serial(digest, first, s'.log, |s'.log|)
  {
    StepEffect(digest, id, s, step, s');
    if Lands(digest, s, step) {
      CommitIsAlone(digest, s, step.k, step.native, step.expected);
      SerialOn(digest, first, s.stored, s.log, Done(s.open[step.k].0, step.native.value, step.expected));
    }
  }

  /** Any interleaving of calls leaves what its committed calls leave when each is prepared and
      committed on its own, in the order of the commits. */
  lemma {:induction false} CommitsAreSerial(digest: Digest, id: nat, worlds: seq<World>, steps: seq<Step>, n: nat)
    requires Injective(digest) && Run(digest, id, worlds, steps) && n <= |steps|
    ensures OpenInv(digest, worlds[n]) && worlds[n].stored == Serial(digest, worlds[0].stored, worlds[n].log, |worlds[n].log|)
  {
    if n > 0 {
      CommitsAreSerial(digest, id, worlds, steps, n - 1);
      OpenStaysHonest(digest, id, worlds[n - 1], steps[n - 1], worlds[n]);
      StepIsSerial(digest, id, worlds[0].stored, worlds[n - 1], steps[n - 1], worlds[n]);
    }
  }

  // ----- the window of a lineage -----

  /** Where the current lineage took over: the start of the last stretch of its calls. */
  function Takeover(log: seq<Done>, n: nat): (j: nat)
    requires n <= |log|
    ensures j <= n && (n > 0 ==> j < n)
    ensures forall k :: j <= k < n ==> log[k].call.lineage == log[n - 1].call.lineage
    ensures 0 < j ==> log[j - 1].call.lineage != log[n - 1].call.lineage
  {
    if n <= 1 then 0
    else if log[n - 2].call.lineage == log[n - 1].call.lineage then Takeover(log, n - 1) else n - 1
  }

  /** The first call whose input still counts: after the last replacement, or the takeover. */
  function Baseline(log: seq<Done>, j: nat, n: nat): (b: nat)
    requires j <= n <= |log|
    ensures j <= b <= n && (forall k :: b <= k < n ==> !log[k].native.mode.Replace?)
    ensures j < b ==> log[b - 1].native.mode.Replace?
  {
    if n == j || log[n - 1].native.mode.Replace? then n else Baseline(log, j, n - 1)
  }

  /** The inputs and outputs of a stretch of calls, end to end. */
  function Concatenated(log: seq<Done>, b: nat, n: nat): seq<Item>
    requires b <= n <= |log|
  {
    if b == n then [] else Concatenated(log, b, n - 1) + log[n - 1].call.newItems + log[n - 1].native.output
  }

  /** What the window holds: the last replacement of the current lineage, if any, and all that
      its later calls put in and got out. */
  function WindowItems(log: seq<Done>, n: nat): seq<Item>
    requires 0 < n <= |log|
  {
    var j := Takeover(log, n);
    var b := Baseline(log, j, n);
    (if j < b then log[b - 1].native.output else []) + Concatenated(log, b, n)
  }

  predicate LogOk(log: seq<Done>) {
    forall k :: 0 <= k < |log| ==> ItemsOk(log[k].call.newItems) && ItemsOk(log[k].native.output)
  }

  lemma WindowItemsStep(log: seq<Done>, n: nat)
    requires 1 < n <= |log| && log[n - 2].call.lineage == log[n - 1].call.lineage
    ensures WindowItems(log, n) == if log[n - 1].native.mode.Replace? then log[n - 1].native.output
      else WindowItems(log, n - 1) + log[n - 1].call.newItems + log[n - 1].native.output
  {
    var j := Takeover(log, n);
    assert Takeover(log, n - 1) == j;
    if log[n - 1].native.mode.Replace? {
      assert Baseline(log, j, n) == n && Concatenated(log, n, n) == [];
    } else {
      var b := Baseline(log, j, n);
      assert b == Baseline(log, j, n - 1) && b < n;
    }
  }

  lemma WindowItemsStart(log: seq<Done>, n: nat)
    requires 0 < n <= |log| && Takeover(log, n) == n - 1
    ensures WindowItems(log, n) ==
      if log[n - 1].native.mode.Replace? then log[n - 1].native.output else log[n - 1].call.newItems + log[n - 1].native.output
  {
    if !log[n - 1].native.mode.Replace? {
      assert Baseline(log, n - 1, n) == Baseline(log, n - 1, n - 1) == n - 1;
      assert Concatenated(log, n - 1, n - 1) == [];
    } else {
      assert Concatenated(log, n, n) == [];
    }
  }

  lemma AloneExtends(digest: Digest, stored: Stored, done: Done)
    requires ItemsOk(done.call.newItems) && ItemsOk(done.native.output)
    requires stored.Window? ==> ItemsOk(stored.state.items)
    ensures var after, same := Alone(digest, stored, done), stored.Window? && stored.state.lineage == done.call.lineage;
      && after.Window? && after.state.lineage == done.call.lineage && ItemsOk(after.state.items)
      && after.state.revision == (if same then stored.state.revision else 0) + 1
      && after.state.items == (if done.native.mode.Replace? then done.native.output
           else (if same then stored.state.items else []) + done.call.newItems + done.native.output)
  {}

  /** The stored window is the one of the first `n` calls. */
  predicate IsWindow(stored: Stored, log: seq<Done>, n: nat)
    requires 0 < n <= |log|
  {
    && stored.Window? && stored.state.lineage == log[n - 1].call.lineage
    && stored.state.items == WindowItems(log, n) && ItemsOk(stored.state.items)
    && stored.state.revision == n - Takeover(log, n)
  }

  lemma WindowOn(digest: Digest, stored: Stored, log: seq<Done>, n: nat)
    requires LogOk(log) && 1 < n <= |log| && IsWindow(stored, log, n - 1)
    ensures IsWindow(Alone(digest, stored, log[n - 1]), log, n)
  {
    AloneExtends(digest, stored, log[n - 1]);
    if log[n - 2].call.lineage == log[n - 1].call.lineage {
      WindowItemsStep(log, n);
      assert Takeover(log, n) == Takeover(log, n - 1);
    } else {
      WindowItemsStart(log, n);
    }
  }

  /** After serial calls on a session without a window, the window of the last call's lineage is
      what was committed since its last replacement, and its revision counts its commits. */
  lemma {:induction false} WindowIsConcatenation(digest: Digest, log: seq<Done>, n: nat)
    requires LogOk(log) && 0 < n <= |log|
    ensures IsWindow(Serial(digest, Missing, log, n), log, n)
  {
    if n == 1 {
      assert Serial(digest, Missing, log, 0) == Missing;
      AloneExtends(digest, Missing, log[0]);
      WindowItemsStart(log, 1);
    } else {
      WindowIsConcatenation(digest, log, n - 1);
      WindowOn(digest, Serial(digest, Missing, log, n - 1), log, n);
    }
  }

  lemma {:induction false} LogStaysOk(digest: Digest, id: nat, worlds: seq<World>, steps: seq<Step>, n: nat)
    requires Run(digest, id, worlds, steps) && n <= |steps|
    ensures LogOk(worlds[n].log) && forall k :: k in worlds[n].open ==> ItemsOk(worlds[n].open[k].0.newItems)
  {
    if n > 0 {
      LogStaysOk(digest, id, worlds, steps, n - 1);
      assert Next(digest, id, worlds[n - 1], steps[n - 1], worlds[n]);
    }
  }

  /** Both together, for every interleaving of calls on a fresh session. */
  lemma InterleavedWindow(digest: Digest, id: nat, worlds: seq<World>, steps: seq<Step>, n: nat)
    requires Injective(digest) && Run(digest, id, worlds, steps) && n <= |steps| && worlds[0].stored == Missing && worlds[n].log != []
    ensures IsWindow(worlds[n].stored, worlds[n].log, |worlds[n].log|)
  {
    CommitsAreSerial(digest, id, worlds, steps, n);
    LogStaysOk(digest, id, worlds, steps, n);
    WindowIsConcatenation(digest, worlds[n].log, |worlds[n].log|);
  }

  // ----- why prepare has to be one step -----

  /** Had the items been loaded before another commit and the digest taken after it, the commit
      would go through and drop the other call's items. */
  lemma TornPrepareDropsItems(digest: Digest, lineage: Lineage, a: Item, b: Item)
    requires ItemOk(a) && ItemOk(b) && a != b
    ensures var other := Alone(digest, Missing, Done(Call(lineage, [], 0, 0), Native(lineage.model, [a], Append, 0), 0));
      var torn := Prepared(digest, Missing, Call(lineage, [], 0, 0)).(baseDigest := digest(other));
      && LoadedItems(other, lineage) == [a] && digest(other) == torn.baseDigest
      && a !in Committed(torn, Native(lineage.model, [b], Append, 0), 0).items
  {}
}
