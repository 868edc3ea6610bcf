/**
 * Chaincase.UI/ViewModels/CoinJoinViewModel.cs: the display rules of the CoinJoin
 * screen — time left in the round, the one-shot "time to CoinJoin" notification,
 * the input limit, the coin-status predicates and how round state is copied in.
 *
 * Times are whole seconds: an instant (`DateTimeOffset`) is seconds since the
 * calendar's origin, so `default(DateTimeOffset)` is 0 and comes before every real
 * instant; a duration (`TimeSpan`) is a number of seconds. Amounts are satoshis.
 */
module CoinJoin {
  import opened Wrappers

  /** `MaxInputsAllowed`, the backend's limit on inputs per participant. */
  const MaxInputsAllowed: nat := 7

  /** `NOTIFY_TIMEOUT_DELTA`: the notification fires this many seconds before the timeout. */
  const NotifyTimeoutDelta: nat := 90

  /** `TimeUntilOffset`: the time from `now` to `offset`, never negative. */
  function TimeUntilOffset(offset: int, now: int): (left: nat)
    ensures left >= offset - now
    ensures offset > now ==> left == offset - now
    ensures offset <= now ==> left == 0
  {
    if offset - now > 0 then offset - now else 0
  }

  /** `WalletWasabi.CoinJoin.Common.Models.RoundPhase` */
  datatype RoundPhase = InputRegistration | ConnectionConfirmation | OutputRegistration | Signing

  /** `RoundPhaseState`: the phase shown and whether the client is in an error state. */
  datatype RoundPhaseState = RoundPhaseState(phase: RoundPhase, error: bool)

  /** `WalletWasabi.Blockchain.TransactionOutputs.SmartCoinStatus` */
  datatype SmartCoinStatus =
    | Unconfirmed | Confirmed | SpentAccordingToBackend | MixingOnWaitingList
    | MixingWaitingForConfirmation | MixingInputRegistration | MixingBanned
    | MixingConnectionConfirmation | MixingOutputRegistration | MixingSigning

  /** `isAnyCoinRegisteredObservable`: some coin is registered as an input of a round. */
  function AnyCoinRegistered(statuses: seq<SmartCoinStatus>): (r: bool)
    ensures r <==> exists i :: 0 <= i < |statuses| && statuses[i] == MixingInputRegistration
  {
    if statuses == [] then false
    else statuses[0] == MixingInputRegistration || AnyCoinRegistered(statuses[1..])
  }

  /** The statuses that count as the coordinator having answered a registration. */
  predicate IsRegistrationResponse(s: SmartCoinStatus) {
    s == MixingBanned || s == MixingWaitingForConfirmation || s == SpentAccordingToBackend
    || s == MixingConnectionConfirmation || s == MixingOutputRegistration
  }

  /** `HasMostRecentRegisterationResponse`: some coin is in a response status, or some
      coin is registered. */
  function HasRegistrationResponse(statuses: seq<SmartCoinStatus>): (r: bool)
    ensures r <==> exists i ::
      0 <= i < |statuses| && (IsRegistrationResponse(statuses[i]) || statuses[i] == MixingInputRegistration)
  {
    if statuses == [] then false
    else
      || IsRegistrationResponse(statuses[0])
      || statuses[0] == MixingInputRegistration
      || HasRegistrationResponse(statuses[1..])
  }

  /** A registered coin always counts as a response, whatever the other coins. */
  lemma RegisteredIsResponse(statuses: seq<SmartCoinStatus>)
    ensures AnyCoinRegistered(statuses) ==> HasRegistrationResponse(statuses)
  {
  }

  /** `HasTooManyInputs`: more coins selected than the backend admits. */
  function HasTooManyInputs(selectedCount: nat): (r: bool)
    ensures r <==> selectedCount >= MaxInputsAllowed + 1
  {
    selectedCount > MaxInputsAllowed
  }

  /** `HasSelectedEnough`: the selection (none counts as zero) covers the required amount. */
  function HasSelectedEnough(selectedAmount: Option<int>, requiredBtc: int): (r: bool)
    ensures selectedAmount.None? ==> (r <==> requiredBtc <= 0)
    ensures selectedAmount.Some? ==> (r <==> requiredBtc <= selectedAmount.value)
  {
    (if selectedAmount.Some? then selectedAmount.value else 0) >= requiredBtc
  }

  /** The delay of the notification `ScheduleConfirmNotification` would schedule for
      `offset` at `now`, or `None` when it schedules nothing. */
  function NotificationDelay(offset: int, now: int, phase: RoundPhase, lastOffset: int): (d: Option<nat>)
    ensures d.Some? <==>
      && TimeUntilOffset(offset, now) >= NotifyTimeoutDelta
      && phase == InputRegistration
      && offset > lastOffset
    ensures d.Some? ==> d.value + NotifyTimeoutDelta == offset - now
  {
    var timeoutSeconds := TimeUntilOffset(offset, now);
    if timeoutSeconds < NotifyTimeoutDelta || phase != InputRegistration then None
    else if offset <= lastOffset then None
    else Some(timeoutSeconds - NotifyTimeoutDelta)
  }

  /** Once an offset is recorded, neither it nor an earlier one is scheduled again,
      whenever and in whatever phase the rule runs next. */
  lemma NotifiedOnce(offset: int, earlier: int, now: int, phase: RoundPhase)
    requires earlier <= offset
    ensures NotificationDelay(earlier, now, phase, offset) == None
  {
  }

  /** The title passed to `ScheduleNotification`. */
  const NotificationTitle: string := "Time to CoinJoin Now"

  /** One call of `_notificationManager.ScheduleNotification`, with the round timeout it was for. */
  datatype ScheduledNotification = ScheduledNotification(offset: int, title: string, delaySeconds: nat)

  /** What `ClientRound.State` tells the screen. `requiredAmount` is what
      `CalculateRequiredAmount` returns for this round. */
  datatype ClientRound = ClientRound(
    phase: RoundPhase,
    inputRegistrationTimesout: int,
    registeredPeerCount: int,
    queuedPeerCount: int,
    requiredPeerCount: int,
    requiredAmount: int,
    coordinatorFeePercent: string)

  /** What `ChaumianClient.State` tells the screen. */
  datatype ClientState = ClientState(
    queuedAmount: int,                  // SumAllQueuedCoinAmounts
    registrable: Option<ClientRound>,   // GetRegistrableRoundOrDefault
    mostAdvanced: Option<ClientRound>,  // GetMostAdvancedRoundOrDefault
    isInErrorState: bool)

  /** The round timeout shown: the input-registration timeout while registering, else now. */
  function RoundTimeout(round: ClientRound, now: int): (t: int)
    ensures round.phase == InputRegistration ==> t == round.inputRegistrationTimesout
    ensures round.phase != InputRegistration ==> t == now
  {
    if round.phase == InputRegistration then round.inputRegistrationTimesout else now
  }

  /** `Money.Parse("0.01")` */
  const DefaultRequiredBtc: int := 1_000_000
  const DefaultPeersNeeded: int := 100
  const DefaultCoordinatorFeePercent: string := "0.003"

  class CoinJoinViewModel {
    var roundPhaseState: RoundPhaseState
    var roundTimesout: int
    var peersRegistered: int
    var peersQueued: int
    var peersNeeded: int
    var requiredBtc: int
    var amountQueued: int
    var coordinatorFeePercent: string
    /** `_notificationTimeOffset` */
    var notificationTimeOffset: int
    /** The notifications scheduled so far, oldest first. */
    var scheduled: seq<ScheduledNotification>

    /** The recorded offset is the latest scheduled one, and scheduled offsets strictly increase. */
    predicate Valid()
      reads this
    {
      && (forall i, j :: 0 <= i < j < |scheduled| ==> scheduled[i].offset < scheduled[j].offset)
      && (forall i :: 0 <= i < |scheduled| ==> scheduled[i].offset <= notificationTimeOffset)
    }

    /** The constructor's round defaults: copied from the most advanced round when the
        client has one, fixed defaults otherwise. `clientInError` is
        `ChaumianClient?.State.IsInErrorState` (`None` without a client). */
    constructor (registrable: Option<ClientRound>, mostAdvanced: Option<ClientRound>, clientInError: Option<bool>, now: int)
      ensures Valid() && scheduled == [] && notificationTimeOffset == 0
      ensures coordinatorFeePercent == if registrable.Some? then registrable.value.coordinatorFeePercent else DefaultCoordinatorFeePercent
      ensures mostAdvanced.Some? ==>
        var round := mostAdvanced.value;
        && roundPhaseState == RoundPhaseState(round.phase, clientInError == Some(true))
        && roundTimesout == RoundTimeout(round, now)
        && peersRegistered == round.registeredPeerCount && peersQueued == round.queuedPeerCount
        && peersNeeded == round.requiredPeerCount && requiredBtc == round.requiredAmount
      ensures mostAdvanced.None? ==>
        && roundPhaseState == RoundPhaseState(InputRegistration, false) && roundTimesout == now
        && peersRegistered == 0 && peersQueued == 0 && peersNeeded == DefaultPeersNeeded
        && requiredBtc == DefaultRequiredBtc
      ensures amountQueued == 0
    {
      coordinatorFeePercent := if registrable.Some? then registrable.value.coordinatorFeePercent else DefaultCoordinatorFeePercent;
      if mostAdvanced.Some? {
        var round := mostAdvanced.value;
        roundPhaseState := RoundPhaseState(round.phase, if clientInError.Some? then clientInError.value else false);
        roundTimesout := if round.phase == InputRegistration then round.inputRegistrationTimesout else now;
        peersRegistered := round.registeredPeerCount;
        peersQueued := round.queuedPeerCount;
        peersNeeded := round.requiredPeerCount;
        requiredBtc := round.requiredAmount;
      } else {
        roundPhaseState := RoundPhaseState(InputRegistration, false);
        roundTimesout := now;
        peersRegistered := 0;
        peersQueued := 0;
        peersNeeded := DefaultPeersNeeded;
        requiredBtc := DefaultRequiredBtc;
      }
      amountQueued := 0;
      notificationTimeOffset := 0;
      scheduled := [];
    }

    /** `ScheduleConfirmNotification(offset)` at time `now`. */
    method ScheduleConfirmNotification(offset: int, now: int)
      requires Valid()
      modifies this`notificationTimeOffset, this`scheduled
      ensures Valid()
      ensures notificationTimeOffset >= old(notificationTimeOffset)
      ensures match NotificationDelay(offset, now, roundPhaseState.phase, old(notificationTimeOffset))
        case None => notificationTimeOffset == old(notificationTimeOffset) && scheduled == old(scheduled)
        case Some(d) =>
          && notificationTimeOffset == offset > old(notificationTimeOffset)
          && scheduled == old(scheduled) + [ScheduledNotification(offset, NotificationTitle, d)]
    {
      var timeoutSeconds := TimeUntilOffset(offset, now);
      if timeoutSeconds < NotifyTimeoutDelta || roundPhaseState.phase != InputRegistration {
        return;
      }
      if offset <= notificationTimeOffset {
        return;
      }
      notificationTimeOffset := offset;
      var timeToNotify := timeoutSeconds - NotifyTimeoutDelta;
      scheduled := scheduled + [ScheduledNotification(offset, NotificationTitle, timeToNotify)];
    }

    /** `UpdateStates`, with the client's state (`None` without a client) and the current
        time. `RequiredBTC` takes the registrable round's required amount. */
    method UpdateStates(client: Option<ClientState>, now: int)
      modifies this`amountQueued, this`coordinatorFeePercent, this`requiredBtc, this`roundPhaseState,
        this`roundTimesout, this`peersRegistered, this`peersQueued, this`peersNeeded
      ensures client.None? ==>
        && amountQueued == old(amountQueued) && coordinatorFeePercent == old(coordinatorFeePercent)
        && requiredBtc == old(requiredBtc) && roundPhaseState == old(roundPhaseState)
        && roundTimesout == old(roundTimesout) && peersRegistered == old(peersRegistered)
        && peersQueued == old(peersQueued) && peersNeeded == old(peersNeeded)
      ensures client.Some? ==>
        var state := client.value;
        && amountQueued == state.queuedAmount
        && (state.registrable.Some? ==>
              coordinatorFeePercent == state.registrable.value.coordinatorFeePercent
              && requiredBtc == state.registrable.value.requiredAmount)
        && (state.registrable.None? ==>
              coordinatorFeePercent == old(coordinatorFeePercent) && requiredBtc == old(requiredBtc))
        && (state.mostAdvanced.None? ==>
              && roundPhaseState == old(roundPhaseState) && roundTimesout == old(roundTimesout)
              && peersRegistered == old(peersRegistered) && peersQueued == old(peersQueued)
              && peersNeeded == old(peersNeeded))
        && (state.mostAdvanced.Some? ==>
              var round := state.mostAdvanced.value;
              && (!state.isInErrorState ==>
                    roundPhaseState == RoundPhaseState(round.phase, false)
                    && roundTimesout == RoundTimeout(round, now))
              && (state.isInErrorState ==>
                    roundPhaseState == RoundPhaseState(old(roundPhaseState).phase, true)
                    && roundTimesout == old(roundTimesout))
              && peersRegistered == round.registeredPeerCount
              && peersQueued == round.queuedPeerCount
              && peersNeeded == round.requiredPeerCount)
    {
      if client.None? {
        return;
      }
      var state := client.value;
      amountQueued := state.queuedAmount;
      if state.registrable.Some? {
        coordinatorFeePercent := state.registrable.value.coordinatorFeePercent;
        requiredBtc := state.registrable.value.requiredAmount;
      }
      if state.mostAdvanced.Some? {
        var round := state.mostAdvanced.value;
        if !state.isInErrorState {
          roundPhaseState := RoundPhaseState(round.phase, false);
          roundTimesout := if round.phase == InputRegistration then round.inputRegistrationTimesout else now;
        } else {
          roundPhaseState := RoundPhaseState(roundPhaseState.phase, true);
        }
        peersRegistered := round.registeredPeerCount;
        peersQueued := round.queuedPeerCount;
        peersNeeded := round.requiredPeerCount;
      }
    }
  }
}
