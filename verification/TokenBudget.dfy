/** How a context window is divided between prompt and answer (runtime/token_estimator.py). */
module TokenBudget {
  import opened Prelude

  const DEFAULT_WINDOW := 128000
  const DEFAULT_RESERVE := 4096

  /** The attributes a provider may set, in the order they are looked up; the first positive
      value of each kind counts. */
  datatype Provider = Provider(window: seq<int>, reserve: seq<int>, input: seq<int>, output: seq<int>)

  function FirstPositive(values: seq<int>): (r: Option<int>)
    ensures r.Some? ==> r.value > 0 && r.value in values
    ensures r.None? <==> forall i :: 0 <= i < |values| ==> values[i] <= 0
  {
    if values == [] then None else if values[0] > 0 then Some(values[0]) else FirstPositive(values[1..])
  }

  /** 85 percent, rounded down. */
  function Safe(tokens: nat): nat {
    17 * tokens / 20
  }

  /** A fifth, rounded down. */
  function Fifth(tokens: nat): nat {
    tokens / 5
  }

  function Window(provider: Provider): (r: nat)
    ensures r > 0
  {
    var value := FirstPositive(provider.window);
    if value.Some? then value.value else DEFAULT_WINDOW
  }

  function OutputReserve(provider: Provider, requestedTokens: int, window: nat): nat {
    var explicit := FirstPositive(provider.reserve);
    var requested := Max(0, requestedTokens);
    var cap := Max(1, Fifth(Max(1, window)));
    var reserve :=
      if explicit.Some? then explicit.value
      else if requested > 0 then Min(requested, Min(DEFAULT_RESERVE, cap))
      else 0;
    Max(0, Min(if requested > 0 then Min(reserve, requested) else reserve, cap))
  }

  function SafeContextLimit(provider: Provider, requestedTokens: int): nat {
    var window := Window(provider);
    var limit := Max(1, Safe(window) - OutputReserve(provider, requestedTokens, window));
    var explicit := FirstPositive(provider.input);
    if explicit.None? then Max(1, limit) else Max(1, Min(Safe(explicit.value), limit))
  }

  function OutputTokens(provider: Provider, requestedTokens: int, inputTokens: int): nat {
    var requested := Max(1, requestedTokens);
    var available := Max(1, Max(1, Safe(Window(provider))) - Max(0, inputTokens));
    var explicit := FirstPositive(provider.output);
    Max(1, Min(requested, if explicit.Some? then Min(available, explicit.value) else available))
  }

  /** The reserve never takes more than a fifth of the window, nor more than is asked for. */
  lemma ReserveFits(provider: Provider, requested: int, window: nat)
    requires window >= 2
    ensures OutputReserve(provider, requested, window) <= Max(1, window / 5)
    ensures requested > 0 ==> OutputReserve(provider, requested, window) <= requested
    ensures OutputReserve(provider, requested, window) + 1 <= Max(2, Safe(window))
  {}

  /** A prompt within the limit is granted what was reserved for it, or all that was asked for
      or the provider's own cap if that is less. */
  lemma GrantCoversReserve(provider: Provider, requested: int, input: int)
    requires Window(provider) >= 2 && input <= SafeContextLimit(provider, requested)
    ensures var grant, reserve := OutputTokens(provider, requested, input), OutputReserve(provider, requested, Window(provider));
      && (grant >= Max(1, requested) || grant >= reserve
          || (FirstPositive(provider.output).Some? && grant >= FirstPositive(provider.output).value))
      && 1 <= grant <= Max(1, requested)
  {
    ReserveFits(provider, requested, Window(provider));
  }

  /** Every provider with this window keeps prompt and grant within it, for every request and
      every prompt within the limit. */
  ghost predicate WindowHolds(window: nat) {
    forall provider: Provider, requested: int, input: int ::
      Window(provider) == window && 0 <= input <= SafeContextLimit(provider, requested) ==>
        input + OutputTokens(provider, requested, input) <= window
  }

  lemma PromptAndGrantFit(provider: Provider, requested: int, input: int)
    requires Window(provider) >= 2 && 0 <= input <= SafeContextLimit(provider, requested)
    ensures input + OutputTokens(provider, requested, input) <= Window(provider)
  {
    ReserveFits(provider, requested, Window(provider));
  }

  /** The window is respected exactly when it has room for two tokens. */
  lemma WindowHoldsIff(window: nat)
    requires window > 0
    ensures WindowHolds(window) <==> window >= 2
  {
    if window >= 2 {
      forall provider: Provider, requested: int, input: int
        | Window(provider) == window && 0 <= input <= SafeContextLimit(provider, requested)
        ensures input + OutputTokens(provider, requested, input) <= window
      {
        PromptAndGrantFit(provider, requested, input);
      }
    } else {
      var provider := Provider([1], [], [], []);
      assert FirstPositive(provider.window) == Some(1);
      assert Window(provider) == 1 && 1 <= SafeContextLimit(provider, 1) && OutputTokens(provider, 1, 1) == 1;
    }
  }
}
