/**
 * Chaincase.Common/Services/ChaincaseSynchronizer.cs: the per-network tables of
 * `ChaincaseSynchronizer`, its pause/resume handshake over the `_running` flag,
 * and the early exits of `MempoolSynchronizer.ActionAsync`.
 *
 * `_running` is an int updated with `Interlocked.CompareExchange`; here it is the
 * enumeration `RunState` (0 NotStarted, 1 Running, 2 Stopping, 3 Stopped) and each
 * compare-and-swap is one step of `CompareExchange`. The base runner's background
 * loop, which is not part of this model, appears only as the environment step
 * `AcknowledgeStop` (2 -> 3).
 */
module Synchronizer {
  import opened Wrappers

  /** `Network.ChainName`; any chain other than the three Bitcoin ones is `OtherChain`. */
  datatype Chain = Mainnet | Testnet | Regtest | OtherChain(name: string)

  /** `GetMaxFilterFetch`: how many filters one request fetches on each chain. */
  function MaxFilterFetch(chain: Chain): (r: nat)
    ensures r == 10 <==> chain == Regtest
    ensures r == 1000 <==> chain == Mainnet
    ensures r == 10 || r == 1000 || r == 10000
  {
    match chain
    case Mainnet => 1000
    case Regtest => 10
    case _ => 10000
  }

  /** `GetRequestInterval`, in seconds: short on regtest, 30 s everywhere else. */
  function RequestInterval(chain: Chain): (seconds: nat)
    ensures seconds == 5 <==> chain == Regtest
    ensures chain != Regtest ==> seconds == 30
  {
    if chain == Regtest then 5 else 30
  }

  /** `TimeSpan.FromMinutes(5)`: the maximum age passed to the base runner, in seconds. */
  const MaxAgeSeconds: nat := 300

  datatype RunState = NotStarted | Running | Stopping | Stopped {
    /** The value of `_running` in the source. */
    function Code(): (c: nat)
      ensures c <= 3
    {
      match this
      case NotStarted => 0
      case Running => 1
      case Stopping => 2
      case Stopped => 3
    }
  }

  /** `Interlocked.CompareExchange(ref location, value, comparand)`: the new content of the
      location and the original value the call returns. */
  datatype Exchange = Exchange(next: RunState, original: RunState)

  function CompareExchange(location: RunState, value: RunState, comparand: RunState): (r: Exchange)
    ensures r.original == location
    ensures r.next == value || r.next == location
    ensures r.next != location ==> location == comparand
  {
    if location == comparand then Exchange(value, location) else Exchange(location, location)
  }

  /** The first step of `SleepAsync`: only a runner that is running is asked to stop. */
  function RequestStop(s: RunState): (r: RunState)
    ensures s == Running ==> r == Stopping
    ensures s != Running ==> r == s
  {
    CompareExchange(s, Stopping, Running).next
  }

  /** One test of the wait loop in `SleepAsync`: the loop goes on exactly while the state is
      Stopping; a runner that never started is marked Stopped on the way out. */
  function PollForStop(s: RunState): (r: Exchange)
    ensures r.original == Stopping <==> s == Stopping
    ensures s == NotStarted ==> r.next == Stopped
    ensures s != NotStarted ==> r.next == s
  {
    CompareExchange(s, Stopped, NotStarted)
  }

  /** The first step of `Resume`: a stopped runner becomes not-started again; any other state stays. */
  function RearmStopped(s: RunState): (r: RunState)
    ensures s == Stopped ==> r == NotStarted
    ensures s != Stopped ==> r == s
  {
    CompareExchange(s, NotStarted, Stopped).next
  }

  /** Stopping and resuming leaves a runner that can be started again, whatever state
      the pause request found it in and however long the background loop took. */
  lemma {:induction false} SleepThenResume(s: RunState, polls: nat)
    ensures RearmStopped(SleepOutcome(RequestStop(s), polls)) == NotStarted
  {
    SleepOutcomeIsStopped(RequestStop(s), polls);
  }

  /** The state `SleepAsync`'s wait loop leaves behind when the background loop acknowledges
      a stop request after `polls` polls. */
  function SleepOutcome(s: RunState, polls: nat): RunState
    decreases polls
  {
    var test := PollForStop(s);
    if test.original != Stopping then test.next
    else if polls == 0 then Stopped
    else SleepOutcome(test.next, polls - 1)
  }

  /** The wait loop always ends in Stopped (unless the runner was found Running, which the
      first step of `SleepAsync` rules out). */
  lemma {:induction false} SleepOutcomeIsStopped(s: RunState, polls: nat)
    requires s != Running
    ensures SleepOutcome(s, polls) == Stopped
    decreases polls
  {
    if s == Stopping && polls > 0 {
      SleepOutcomeIsStopped(s, polls - 1);
    }
  }

  /** A `CancellationTokenSource`. */
  class CancellationSource {
    var cancelled: bool
    var disposed: bool

    constructor ()
      ensures !cancelled && !disposed
    {
      cancelled, disposed := false, false;
    }

    method Cancel()
      modifies this
      ensures cancelled && disposed == old(disposed)
    {
      cancelled := true;
    }

    method Dispose()
      modifies this
      ensures disposed && cancelled == old(cancelled)
    {
      disposed := true;
    }
  }

  /** The arguments of one call to the base runner's `Start(requestInterval, maxAge, maxFiltersToSync)`. */
  datatype StartArgs = StartArgs(requestIntervalSeconds: nat, maxAgeSeconds: nat, maxFiltersToSync: nat)

  class ChaincaseSynchronizer {
    const chain: Chain
    /** `_running` */
    var running: RunState
    /** `Cancel` (null when absent) */
    var cancel: CancellationSource?
    /** The calls made to the base runner's `Start`, oldest first. */
    var starts: seq<StartArgs>

    constructor (chain: Chain)
      ensures this.chain == chain && running == NotStarted && cancel == null && starts == []
    {
      this.chain := chain;
      running := NotStarted;
      cancel := null;
      starts := [];
    }

    /** The background loop, seeing Stopping, marks itself Stopped (an environment step). */
    method AcknowledgeStop()
      modifies this`running
      ensures old(running) == Stopping ==> running == Stopped
      ensures old(running) != Stopping ==> running == old(running)
    {
      if running == Stopping {
        running := Stopped;
      }
    }

    /** `SleepAsync`: ask the loop to stop, cancel, and poll until it reports Stopped.
        `ackAfter` is how many 50 ms polls pass before the background loop acknowledges. */
    method SleepAsync(ackAfter: nat)
      modifies this, cancel
      ensures running == SleepOutcome(RequestStop(old(running)), ackAfter)
      ensures running == Stopped && cancel == null
      ensures old(cancel) != null ==> old(cancel).cancelled && old(cancel).disposed
      ensures starts == old(starts)
    {
      running := RequestStop(running);
      if cancel != null {
        cancel.Cancel();
      }
      var polls := 0;
      var test := PollForStop(running);
      running := test.next;
      while test.original == Stopping
        invariant running == test.next && running != Running
        invariant test.original == Stopping ==> running == Stopping && polls <= ackAfter
        invariant test.original != Stopping ==> running == Stopped
        invariant polls <= ackAfter + 1
        invariant cancel == old(cancel) && starts == old(starts)
        invariant old(cancel) != null ==> old(cancel).cancelled && old(cancel).disposed == old(cancel.disposed)
        decreases ackAfter + 1 - polls
      {
        // Task.Delay(50): meanwhile the background loop may acknowledge.
        if polls == ackAfter {
          AcknowledgeStop();
        }
        polls := polls + 1;
        test := PollForStop(running);
        running := test.next;
      }
      if cancel != null {
        cancel.Dispose();
      }
      cancel := null;
      SleepOutcomeIsStopped(RequestStop(old(running)), ackAfter);
    }

    /** `Start()`: the base runner with the network's interval, five minutes and the network's fetch size. */
    method Start()
      modifies this`starts
      ensures starts == old(starts) + [StartArgs(RequestInterval(chain), MaxAgeSeconds, MaxFilterFetch(chain))]
    {
      starts := starts + [StartArgs(RequestInterval(chain), MaxAgeSeconds, MaxFilterFetch(chain))];
    }

    /** `Resume()`: re-arm a stopped runner, install a fresh cancellation source, start. */
    method Resume()
      modifies this
      ensures running == RearmStopped(old(running))
      ensures cancel != null && fresh(cancel) && !cancel.cancelled && !cancel.disposed
      ensures starts == old(starts) + [StartArgs(RequestInterval(chain), MaxAgeSeconds, MaxFilterFetch(chain))]
    {
      running := RearmStopped(running);
      cancel := new CancellationSource();
      Start();
    }

    /** `Resume(requestInterval)`: as `Resume()`, with the given polling interval. */
    method ResumeWithInterval(requestIntervalSeconds: nat)
      modifies this
      ensures running == RearmStopped(old(running))
      ensures cancel != null && fresh(cancel) && !cancel.cancelled && !cancel.disposed
      ensures starts == old(starts) + [StartArgs(requestIntervalSeconds, MaxAgeSeconds, MaxFilterFetch(chain))]
    {
      running := RearmStopped(running);
      cancel := new CancellationSource();
      starts := starts + [StartArgs(requestIntervalSeconds, MaxAgeSeconds, MaxFilterFetch(chain))];
    }
  }

  /** Above this many missing headers the mempool tick is skipped. */
  const MaxHashesLeft: int := 100

  /** How a mempool tick ended. `NewRoot` is where the source's unfinished processing step
      would begin; the model stops there. */
  datatype TickOutcome<E> =
    | BehindOnHeaders
    | RootFetchFailed(error: E)
    | RootUnchanged
    | NewRoot(key: string, value: string)

  class MempoolSynchronizer {
    /** `lastRootFilterKey` (null when absent). The source never assigns it after construction. */
    var lastRootFilterKey: Option<string>

    constructor ()
      ensures lastRootFilterKey == None
    {
      lastRootFilterKey := None;
    }

    /** `ActionAsync`: `hashesLeft` is `SmartHeaderChain.HashesLeft`; `fetchRoot` is what
        `GetMempoolRootFilter` returns if it is called. `fetches` counts the calls made. */
    method ActionAsync<E>(hashesLeft: int, fetchRoot: Result<(string, string), E>)
      returns (outcome: TickOutcome<E>, fetches: nat)
      ensures hashesLeft > MaxHashesLeft <==> fetches == 0
      ensures fetches <= 1
      ensures hashesLeft > MaxHashesLeft ==> outcome == BehindOnHeaders
      ensures hashesLeft <= MaxHashesLeft && fetchRoot.Failure? ==> outcome == RootFetchFailed(fetchRoot.error)
      ensures hashesLeft <= MaxHashesLeft && fetchRoot.Success? ==>
        if lastRootFilterKey == Some(fetchRoot.value.0) then outcome == RootUnchanged
        else outcome == NewRoot(fetchRoot.value.0, fetchRoot.value.1)
    {
      if hashesLeft > MaxHashesLeft {
        return BehindOnHeaders, 0;
      }
      fetches := 1;
      if fetchRoot.Failure? {
        return RootFetchFailed(fetchRoot.error), fetches;
      }
      var rootFilter := fetchRoot.value;
      if lastRootFilterKey == Some(rootFilter.0) {
        return RootUnchanged, fetches;
      }
      outcome := NewRoot(rootFilter.0, rootFilter.1);
    }
  }
}
