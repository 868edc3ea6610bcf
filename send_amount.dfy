/**
 * Chaincase/ViewModels/SendAmountViewModel.cs: the rules behind the amount screen —
 * cleaning what the user types into the amount field, choosing the fee target and
 * snapping it onto the backend's estimate keys, estimating the transaction size from
 * how many of the selected coins the amount needs, and the "max sendable" amount.
 *
 * Amounts are satoshis (`Money` is a count of satoshis). Parsing and formatting of
 * amounts, fee-rate lookup, fee computation and size estimation are NBitcoin and
 * Wasabi calls; they are the fields of `Services`.
 */
module SendAmount {
  import opened Wrappers
  import Text

  // ---------------------------------------------------------------------------
  // The amount-text sanitiser
  // ---------------------------------------------------------------------------

  /** A character the pattern `[^\d,.]` does not remove. */
  predicate IsAmountChar(c: char) {
    Text.IsDigit(c) || c == ',' || c == '.'
  }

  /** `Regex("[^\d,.]").Replace(s, "")`: every other character is dropped, order kept. */
  function KeepAmountChars(s: string): (r: string)
    ensures |r| <= |s|
    ensures forall i :: 0 <= i < |r| ==> IsAmountChar(r[i])
    decreases |s|
  {
    if s == [] then []
    else (if IsAmountChar(s[0]) then [s[0]] else []) + KeepAmountChars(s[1..])
  }

  /** Text made of amount characters is left alone by the filter. */
  lemma {:induction false} KeepAmountCharsIdentity(s: string)
    requires forall i :: 0 <= i < |s| ==> IsAmountChar(s[i])
    ensures KeepAmountChars(s) == s
    decreases |s|
  {
    if s != [] {
      KeepAmountCharsIdentity(s[1..]);
      assert [s[0]] + s[1..] == s;
    }
  }

  /** `s.Replace(',', '.')` */
  function CommaToDot(s: string): (r: string)
    ensures |r| == |s|
    ensures forall i :: 0 <= i < |s| ==> r[i] == if s[i] == ',' then '.' else s[i]
  {
    seq(|s|, i requires 0 <= i < |s| => if s[i] == ',' then '.' else s[i])
  }

  /** `s.Count(x => x == c)` */
  function Count(s: string, c: char): nat
    decreases |s|
  {
    if s == [] then 0 else (if s[0] == c then 1 else 0) + Count(s[1..], c)
  }

  /** `s.IndexOf(c, from)`: the first position at or after `from` holding `c`, or -1. */
  function IndexOf(s: string, c: char, from: nat): (r: int)
    requires from <= |s|
    ensures r == -1 ==> forall i :: from <= i < |s| ==> s[i] != c
    ensures r != -1 ==> from <= r < |s| && s[r] == c && forall i :: from <= i < r ==> s[i] != c
    decreases |s| - from
  {
    if from == |s| then -1 else if s[from] == c then from else IndexOf(s, c, from + 1)
  }

  lemma {:induction false} CountAppend(a: string, b: string, c: char)
    ensures Count(a + b, c) == Count(a, c) + Count(b, c)
    decreases |a|
  {
    if a != [] {
      assert (a + b)[1..] == a[1..] + b;
      CountAppend(a[1..], b, c);
    } else {
      assert a + b == b;
    }
  }

  lemma {:induction false} CountAbsent(s: string, c: char)
    requires forall i :: 0 <= i < |s| ==> s[i] != c
    ensures Count(s, c) == 0
    decreases |s|
  {
    if s != [] {
      CountAbsent(s[1..], c);
    }
  }

  lemma {:induction false} CountPresent(s: string, c: char, i: nat)
    requires i < |s| && s[i] == c
    ensures Count(s, c) >= 1
    decreases i
  {
    if i > 0 {
      CountPresent(s[1..], c, i - 1);
    }
  }

  /** Two occurrences make a count of at least two. */
  lemma {:induction false} CountTwo(s: string, c: char, i: nat, j: nat)
    requires i < j < |s| && s[i] == c && s[j] == c
    ensures Count(s, c) >= 2
    decreases i
  {
    if i == 0 {
      CountPresent(s[1..], c, j - 1);
    } else {
      CountTwo(s[1..], c, i - 1, j - 1);
    }
  }

  /** A count above one means a second occurrence after the first. */
  lemma SecondOccurrence(s: string, c: char)
    requires Count(s, c) > 1
    ensures IndexOf(s, c, 0) != -1 && IndexOf(s, c, IndexOf(s, c, 0) + 1) != -1
  {
    var d := IndexOf(s, c, 0);
    if d == -1 {
      CountAbsent(s, c);
      assert false;
    }
    if IndexOf(s, c, d + 1) == -1 {
      assert s == s[..d] + [s[d]] + s[d + 1..];
      CountAppend(s[..d] + [s[d]], s[d + 1..], c);
      CountAppend(s[..d], [s[d]], c);
      CountAbsent(s[..d], c);
      CountAbsent(s[d + 1..], c);
      assert false;
    }
  }

  /** At most one '.' in the text. */
  predicate AtMostOneDot(s: string) {
    forall i, j :: 0 <= i < j < |s| && s[i] == '.' ==> s[j] != '.'
  }

  /** At most eight characters after a '.'. */
  predicate AtMostEightDecimals(s: string) {
    forall i :: 0 <= i < |s| && s[i] == '.' ==> |s| - i <= 9
  }

  /** A text the sanitiser would leave as it is, as far as the dot rules go. */
  predicate ValidAmount(s: string) {
    AtMostOneDot(s) && AtMostEightDecimals(s)
  }

  /** Every prefix of a valid amount is valid. */
  lemma ValidPrefix(s: string, m: nat)
    requires ValidAmount(s) && m <= |s|
    ensures ValidAmount(s[..m])
  {
  }

  /** The longest prefix of `t[..n]` that is a valid amount (the empty prefix always is). */
  function LongestValid(t: string, n: nat): (k: nat)
    requires n <= |t|
    ensures k <= n && ValidAmount(t[..k])
    ensures forall m :: k < m <= n ==> !ValidAmount(t[..m])
    decreases n
  {
    if ValidAmount(t[..n]) then n else LongestValid(t, n - 1)
  }

  /** The text after the character filter and the comma replacement. */
  function Normalised(amount: string): (t: string)
    ensures forall i :: 0 <= i < |t| ==> Text.IsDigit(t[i]) || t[i] == '.'
  {
    CommaToDot(KeepAmountChars(amount))
  }

  /** What the `AmountText` subscription turns `amount` into: the longest prefix of the
      normalised text that has at most one '.' and at most eight digits after it. */
  function Sanitise(amount: string): (r: string)
    ensures forall i :: 0 <= i < |r| ==> Text.IsDigit(r[i]) || r[i] == '.'
    ensures AtMostOneDot(r) && AtMostEightDecimals(r)
    ensures r <= Normalised(amount)
  {
    var t := Normalised(amount);
    t[..LongestValid(t, |t|)]
  }

  /** No longer prefix of the normalised text would do: the sanitiser cuts only what it must. */
  lemma SanitiseLongest(amount: string)
    ensures var t := Normalised(amount);
      forall m :: |Sanitise(amount)| < m <= |t| ==> !ValidAmount(t[..m])
  {
  }

  /** Sanitising twice is sanitising once, so the write-back of a corrected text
      triggers the subscription again without a second change. */
  lemma SanitiseIdempotent(amount: string)
    ensures Sanitise(Sanitise(amount)) == Sanitise(amount)
  {
    var s := Sanitise(amount);
    KeepAmountCharsIdentity(s);
    assert CommaToDot(s) == s;
    assert s[..|s|] == s;
  }

  /** A prefix that is valid but cannot be extended is the longest one. */
  lemma CutIsLongest(t: string, k: nat)
    requires k <= |t| && ValidAmount(t[..k])
    requires k < |t| ==> !ValidAmount(t[..k + 1])
    ensures LongestValid(t, |t|) == k
  {
    var k' := LongestValid(t, |t|);
    if k' > k {
      InvalidBeyond(t, k, k');
    }
  }

  /** Once a prefix is invalid, every longer prefix is. */
  lemma InvalidBeyond(t: string, k: nat, m: nat)
    requires k < m <= |t| && !ValidAmount(t[..k + 1])
    ensures !ValidAmount(t[..m])
  {
    if ValidAmount(t[..m]) {
      ValidPrefix(t[..m], k + 1);
      assert false;
    }
  }

  /** One dot: the text is kept up to eight decimals. */
  lemma CutOneDot(t: string, d: nat)
    requires d < |t| && t[d] == '.' && forall i :: 0 <= i < |t| && i != d ==> t[i] != '.'
    ensures |t| - d > 8 ==> LongestValid(t, |t|) == d + 9
    ensures |t| - d <= 8 ==> LongestValid(t, |t|) == |t|
  {
    if |t| - d > 9 {
      assert t[..d + 10][d] == '.';
      CutIsLongest(t, d + 9);
    } else if |t| - d == 9 {
      assert t[..|t|] == t;
      CutIsLongest(t, |t|);
    } else {
      assert t[..|t|] == t;
      CutIsLongest(t, |t|);
    }
  }

  /** Two dots or more: the text is cut before the second dot, or after eight decimals
      if that comes first. */
  lemma CutTwoDots(t: string, d: nat, e: nat)
    requires d < e < |t| && t[d] == '.' && t[e] == '.'
    requires forall i :: 0 <= i < e && i != d ==> t[i] != '.'
    ensures e - d > 8 ==> LongestValid(t, |t|) == d + 9
    ensures e - d <= 8 ==> LongestValid(t, |t|) == e
  {
    if e - d > 8 {
      assert t[..d + 10][d] == '.';
      CutIsLongest(t, d + 9);
    } else {
      assert t[..e + 1][d] == '.' && t[..e + 1][e] == '.';
      CutIsLongest(t, e);
    }
  }

  // ---------------------------------------------------------------------------
  // Fee target
  // ---------------------------------------------------------------------------

  datatype FeeChoice = Economy | Standard | Priority

  /** The fee-choice switch of `SetFees`: slowest is the largest target, fastest the
      smallest, standard is six blocks (an hour) unless the largest target is shorter. */
  function FeeTargetFor(choice: FeeChoice, minimumFeeTarget: int, maximumFeeTarget: int): (target: int)
    ensures choice == Economy ==> target == maximumFeeTarget
    ensures choice == Priority ==> target == minimumFeeTarget
    ensures choice == Standard ==>
      target <= 6 && target <= maximumFeeTarget && (target == 6 || target == maximumFeeTarget)
  {
    match choice
    case Economy => maximumFeeTarget
    case Priority => minimumFeeTarget
    case Standard => if maximumFeeTarget < 6 then maximumFeeTarget else 6
  }

  /** Priority never waits longer than standard, nor standard longer than economy. */
  lemma FeeTargetOrder(minimumFeeTarget: int, maximumFeeTarget: int)
    requires minimumFeeTarget <= maximumFeeTarget && minimumFeeTarget <= 6
    ensures FeeTargetFor(Priority, minimumFeeTarget, maximumFeeTarget)
         <= FeeTargetFor(Standard, minimumFeeTarget, maximumFeeTarget)
         <= FeeTargetFor(Economy, minimumFeeTarget, maximumFeeTarget)
  {
  }

  predicate Ascending(keys: seq<int>) {
    forall i, j :: 0 <= i < j < |keys| ==> keys[i] < keys[j]
  }

  /** The `foreach` over the estimate keys, as a scan: stop at an equal key, fall back to
      the previous key at the first larger one, keep the target when none is larger. */
  function SnapScan(target: int, keys: seq<int>, prevKey: int): (r: int)
    ensures r == target || r == prevKey || r in keys
    decreases |keys|
  {
    if keys == [] then target
    else if target == keys[0] then target
    else if target < keys[0] then prevKey
    else SnapScan(target, keys[1..], keys[0])
  }

  /** The fee target after snapping; `prevKey` starts at the first key. */
  function Snap(target: int, keys: seq<int>): (r: int)
    requires |keys| > 0
    ensures r == target || r in keys
  {
    SnapScan(target, keys, keys[0])
  }

  lemma {:induction false} SnapScanAscending(target: int, keys: seq<int>, prevKey: int)
    requires Ascending(keys)
    ensures (forall j :: 0 <= j < |keys| ==> keys[j] < target) ==> SnapScan(target, keys, prevKey) == target
    ensures target in keys ==> SnapScan(target, keys, prevKey) == target
    ensures |keys| > 0 && target < keys[0] ==> SnapScan(target, keys, prevKey) == prevKey
    ensures forall i :: 0 <= i < |keys| - 1 && keys[i] < target < keys[i + 1] ==>
              SnapScan(target, keys, prevKey) == keys[i]
    decreases |keys|
  {
    if keys != [] && target > keys[0] {
      SnapScanAscending(target, keys[1..], keys[0]);
      assert forall i :: 0 < i < |keys| ==> keys[1..][i - 1] == keys[i];
      assert target in keys ==> target in keys[1..];
    }
  }

  /** With ascending keys: a key is kept, a target below all keys becomes the first key,
      one above all keys is kept, and one between two keys becomes the lower of them. */
  lemma SnapCases(target: int, keys: seq<int>)
    requires |keys| > 0 && Ascending(keys)
    ensures target in keys ==> Snap(target, keys) == target
    ensures target < keys[0] ==> Snap(target, keys) == keys[0]
    ensures target > keys[|keys| - 1] ==> Snap(target, keys) == target
    ensures forall i :: 0 <= i < |keys| - 1 && keys[i] < target < keys[i + 1] ==> Snap(target, keys) == keys[i]
  {
    SnapScanAscending(target, keys, keys[0]);
  }

  lemma {:induction false} SnapScanWithin(target: int, keys: seq<int>, prevKey: int)
    requires |keys| > 0 && Ascending(keys) && target <= keys[|keys| - 1]
    ensures SnapScan(target, keys, prevKey) == prevKey || SnapScan(target, keys, prevKey) in keys
    decreases |keys|
  {
    if target > keys[0] {
      SnapScanWithin(target, keys[1..], keys[0]);
    }
  }

  /** A target no larger than the largest key always lands on one of the keys: the fee
      rate is then looked up for a target the estimate has. */
  lemma SnapLandsOnKey(target: int, keys: seq<int>)
    requires |keys| > 0 && Ascending(keys) && target <= keys[|keys| - 1]
    ensures Snap(target, keys) in keys
  {
    SnapScanWithin(target, keys, keys[0]);
  }

  /** The loop of `SetFees` (lines 170-183): `prevKey` starts at the first key. */
  method SnapToEstimate(target: int, keys: seq<int>) returns (feeTarget: int)
    requires |keys| > 0
    ensures feeTarget == Snap(target, keys)
  {
    var prevKey := keys[0];
    feeTarget := target;
    var i := 0;
    while i < |keys|
      invariant 0 <= i <= |keys|
      invariant SnapScan(target, keys[i..], prevKey) == Snap(target, keys)
      invariant feeTarget == target
    {
      if feeTarget == keys[i] {
        return;
      } else if feeTarget < keys[i] {
        feeTarget := prevKey;
        return;
      }
      assert keys[i..][1..] == keys[i + 1..];
      prevKey := keys[i];
      i := i + 1;
    }
  }

  /** `Estimations.Min(x => x.Key)` */
  function MinOf(keys: seq<int>): (m: int)
    requires |keys| > 0
    ensures m in keys && forall i :: 0 <= i < |keys| ==> m <= keys[i]
  {
    if |keys| == 1 then keys[0]
    else var rest := MinOf(keys[1..]); if keys[0] <= rest then keys[0] else rest
  }

  /** `Estimations.Max(x => x.Key)` */
  function MaxOf(keys: seq<int>): (m: int)
    requires |keys| > 0
    ensures m in keys && forall i :: 0 <= i < |keys| ==> keys[i] <= m
  {
    if |keys| == 1 then keys[0]
    else var rest := MaxOf(keys[1..]); if keys[0] >= rest then keys[0] else rest
  }

  /** The limits used when no estimate is available: two blocks, and
      `Constants.SevenDaysConfirmationTarget` (7 * 24 * 6 blocks). */
  const DefaultMinimumFeeTarget: int := 2
  const SevenDaysConfirmationTarget: int := 1008

  /** `FeeTarget` clamped into the limits by the estimate-changed handler. */
  function Clamp(target: int, lo: int, hi: int): (r: int)
    ensures lo <= hi ==> lo <= r <= hi
    ensures lo <= target <= hi ==> r == target
  {
    if target < lo then lo else if target > hi then hi else target
  }

  // ---------------------------------------------------------------------------
  // Input count and fee
  // ---------------------------------------------------------------------------

  /** The sum of the amounts in `s`. */
  function Sum(s: seq<int>): int {
    if s == [] then 0 else Sum(s[..|s| - 1]) + s[|s| - 1]
  }

  predicate Descending(s: seq<int>) {
    forall i, j :: 0 <= i < j < |s| ==> s[i] >= s[j]
  }

  /** Putting an element no smaller than the head in front keeps a sequence descending. */
  lemma ConsDescending(x: int, s: seq<int>)
    requires Descending(s) && (s == [] || x >= s[0])
    ensures Descending([x] + s)
  {
    var r := [x] + s;
    forall i, j | 0 <= i < j < |r|
      ensures r[i] >= r[j]
    {
      if i > 0 {
        assert r[i] == s[i - 1] && r[j] == s[j - 1];
      } else {
        assert r[j] == s[j - 1];
      }
    }
  }

  function Insert(x: int, s: seq<int>): (r: seq<int>)
    requires Descending(s)
    ensures |r| == |s| + 1 && (r[0] == x || (|s| > 0 && r[0] == s[0]))
    ensures Descending(r) && multiset(r) == multiset(s) + multiset{x}
    decreases |s|
  {
    if s == [] || x >= s[0] then
      ConsDescending(x, s);
      [x] + s
    else
      var rest := Insert(x, s[1..]);
      assert s == [s[0]] + s[1..];
      ConsDescending(s[0], rest);
      [s[0]] + rest
  }

  /** `OrderByDescending(x => x.Amount)`, on the amounts. */
  function SortDescending(s: seq<int>): (r: seq<int>)
    ensures Descending(r) && multiset(r) == multiset(s)
    decreases |s|
  {
    if s == [] then []
    else
      assert s == [s[0]] + s[1..];
      Insert(s[0], SortDescending(s[1..]))
  }

  /** The greedy rule: the first `n >= start` such that the first `n` coins add up to more
      than the amount, or all of the coins. */
  function InputsFrom(coins: seq<int>, amount: int, start: nat): (n: nat)
    requires 1 <= start <= |coins|
    requires forall j :: 0 < j < start ==> Sum(coins[..j]) <= amount
    ensures start <= n <= |coins|
    ensures forall j :: 0 < j < n ==> Sum(coins[..j]) <= amount
    ensures n == |coins| || Sum(coins[..n]) > amount
    decreases |coins| - start
  {
    if start == |coins| || Sum(coins[..start]) > amount then start
    else InputsFrom(coins, amount, start + 1)
  }

  /** How many inputs the transaction is sized for: the shortest prefix of the coins whose
      sum exceeds the amount, or all of them. */
  function InputsNeeded(coins: seq<int>, amount: int): (n: nat)
    ensures n <= |coins| && (coins != [] ==> 1 <= n)
    ensures forall j :: 0 < j < n ==> Sum(coins[..j]) <= amount
    ensures n == |coins| || Sum(coins[..n]) > amount
  {
    if coins == [] then 0 else InputsFrom(coins, amount, 1)
  }

  /** Those conditions single out one count. */
  lemma InputsNeededUnique(coins: seq<int>, amount: int, n: nat)
    requires n <= |coins| && (coins != [] ==> 1 <= n)
    requires forall j :: 0 < j < n ==> Sum(coins[..j]) <= amount
    requires n == |coins| || Sum(coins[..n]) > amount
    ensures n == InputsNeeded(coins, amount)
  {
  }

  /** The greedy loop of `SetFees` over the coins in descending order. */
  method CountInputs(coins: seq<int>, amount: int) returns (inNum: nat)
    ensures inNum == InputsNeeded(coins, amount)
  {
    inNum := 0;
    var amountSoFar := 0;
    while inNum < |coins|
      invariant inNum <= |coins|
      invariant amountSoFar == Sum(coins[..inNum])
      invariant forall j :: 0 < j <= inNum ==> Sum(coins[..j]) <= amount
    {
      assert coins[..inNum + 1][..inNum] == coins[..inNum];
      amountSoFar := amountSoFar + coins[inNum];
      inNum := inNum + 1;
      if amountSoFar > amount {
        break;
      }
    }
    InputsNeededUnique(coins, amount, inNum);
  }

  /** `string.TrimStart('~', ' ')` */
  function TrimStart(s: string): (r: string)
    ensures |r| <= |s| && r == s[|s| - |r|..]
    ensures r != [] ==> r[0] != '~' && r[0] != ' '
    ensures forall i :: 0 <= i < |s| - |r| ==> s[i] == '~' || s[i] == ' '
    decreases |s|
  {
    if s != [] && (s[0] == '~' || s[0] == ' ') then TrimStart(s[1..]) else s
  }

  /** A fee rate, in satoshis per 1000 virtual bytes. */
  datatype FeeRate = FeeRate(satoshiPerKvb: nat)

  /** The library calls the rules depend on. */
  datatype Services = Services(
    parseMoney: string -> Option<int>,      // Money.TryParse, in satoshis
    formatMoney: int -> string,             // Money.ToString(false, true)
    vsizeFor: (nat, nat) -> nat,            // NBitcoinHelpers.CalculateVsizeAssumeSegwit(inputs, outputs)
    totalFee: (FeeRate, nat) -> int)        // FeeRate.GetTotalFee(vsize)

  /** `AllFeeEstimate`: its keys in enumeration order and `GetFeeRate`. */
  datatype FeeEstimate = FeeEstimate(targets: seq<int>, rateFor: int -> Option<FeeRate>)

  /** The size used when nothing better is known. */
  const DefaultVsize: nat := 150

  /** The size `SetFees` prices: sized for the greedy input count and two outputs when
      coins are selected and the amount parses, the default otherwise. */
  function VirtualSize(selected: seq<int>, amountText: string, svc: Services): (vsize: nat)
    ensures selected == [] || svc.parseMoney(TrimStart(amountText)).None? ==> vsize == DefaultVsize
    ensures selected != [] && svc.parseMoney(TrimStart(amountText)).Some? ==>
      exists n :: 1 <= n <= |selected| && vsize == svc.vsizeFor(n, 2)
  {
    if selected != [] && svc.parseMoney(TrimStart(amountText)).Some? then
      var n := InputsNeeded(SortDescending(selected), svc.parseMoney(TrimStart(amountText)).value);
      assert |SortDescending(selected)| == |selected| by {
        assert |multiset(SortDescending(selected))| == |multiset(selected)|;
      }
      svc.vsizeFor(n, 2)
    else DefaultVsize
  }

  /** The size estimate inside `SetFees`: the default, or the size of a transaction with
      as many inputs as the greedy count over the coins sorted by amount. */
  method EstimateVirtualSize(selected: seq<int>, amountText: string, svc: Services) returns (vsize: nat)
    ensures vsize == VirtualSize(selected, amountText, svc)
  {
    vsize := DefaultVsize;
    if selected != [] {
      var amount := svc.parseMoney(TrimStart(amountText));
      if amount.Some? {
        var inNum := CountInputs(SortDescending(selected), amount.value);
        vsize := svc.vsizeFor(inNum, 2);
      }
    }
  }

  /** `Math.Max(Money.Zero, all - EstimatedBtcFee)`: what is left of the selection after the fee. */
  function MaxSendable(all: int, fee: int): (r: int)
    ensures r >= 0 && r >= all - fee
    ensures r == 0 || r == all - fee
    ensures fee <= all ==> r == all - fee
  {
    if all - fee > 0 then all - fee else 0
  }

  /** The amount text shown in "max" mode. A zero balance reads "Too high fee" whenever
      the fee is not negative, so "No Coins Selected" needs a negative fee: with no coin
      selected and any real fee the text still reads "Too high fee". */
  function MaxAmountText(allSelectedAmount: int, estimatedBtcFee: int, formatted: string): (r: string)
    ensures allSelectedAmount != 0 ==> r == "~ " + formatted
    ensures r == "Too high fee" <==> allSelectedAmount == 0 && estimatedBtcFee >= 0
    ensures r == "No Coins Selected" <==> allSelectedAmount == 0 && estimatedBtcFee < 0
  {
    if allSelectedAmount == 0 then
      if estimatedBtcFee >= allSelectedAmount then "Too high fee" else "No Coins Selected"
    else
      var r := "~ " + formatted;
      assert r[0] == '~';
      r
  }

  /** `SendFromText`: the coin-selection button label. */
  function SendFromText(selectPrivate: bool, selectedCount: nat): (r: string)
    ensures selectPrivate ==> r == "Auto-Select Private \U{25BE}"
    ensures !selectPrivate ==>
      var d := Text.DecimalString(selectedCount);
      && d <= r && Text.DigitsValue(d) == selectedCount
      && (r[|d|..] == " Coin \U{25BE}" <==> selectedCount == 1)
    ensures !selectPrivate && selectedCount != 1 ==> r == Text.DecimalString(selectedCount) + " Coins \U{25BE}"
  {
    Text.DigitsValueOfDecimal(selectedCount);
    var coinGrammaticalNumber := if selectedCount == 1 then " Coin \U{25BE}" else " Coins \U{25BE}";
    if selectPrivate then "Auto-Select Private \U{25BE}"
    else
      var r := Text.DecimalString(selectedCount) + coinGrammaticalNumber;
      assert r[|Text.DecimalString(selectedCount)|..] == coinGrammaticalNumber;
      r
  }

  /** `AmountTextPositive`: the `AmountText` property (not its argument) parses to more
      than zero satoshis; a text that does not parse counts as not positive. */
  function AmountTextPositive(amountText: string, svc: Services): (r: bool)
    ensures r <==> exists a :: svc.parseMoney(TrimStart(amountText)) == Some(a) && a > 0
  {
    match svc.parseMoney(TrimStart(amountText))
    case None => false
    case Some(a) => a > 0
  }

  /** The rewriting steps of the `AmountText` subscription: keep digits, '.' and ',', turn
      ',' into '.', cut at a second '.', and cut after eight decimals. */
  method SanitiseAmountText(amount: string) returns (betterAmount: string)
    ensures betterAmount == Sanitise(amount)
  {
    betterAmount := KeepAmountChars(amount);
    betterAmount := CommaToDot(betterAmount);
    ghost var t := betterAmount;
    assert t == Normalised(amount);
    var countBetterAmount := Count(betterAmount, '.');
    if countBetterAmount > 1 {
      SecondOccurrence(betterAmount, '.');
      var index := IndexOf(betterAmount, '.', IndexOf(betterAmount, '.', 0) + 1);
      if index > 0 {
        betterAmount := betterAmount[..index];
      }
    }
    var dotIndex := IndexOf(betterAmount, '.', 0);
    if dotIndex != -1 && |betterAmount| - dotIndex > 8 {
      betterAmount := betterAmount[..dotIndex + 1 + 8];
    }
    CutMatchesSanitise(amount, countBetterAmount, betterAmount);
  }

  /** The enabling condition of `GoNext`: a positive amount that, with the fee, the
      selected coins cover. */
  function CanGoNext(amountText: string, estimatedBtcFee: int, selectedAmount: int, svc: Services): (r: bool)
    ensures r <==> exists a :: svc.parseMoney(TrimStart(amountText)) == Some(a) && a > 0 && a + estimatedBtcFee <= selectedAmount
  {
    AmountTextPositive(amountText, svc)
    && svc.parseMoney(TrimStart(amountText)).value + estimatedBtcFee <= selectedAmount
  }

  // ---------------------------------------------------------------------------
  // The view model
  // ---------------------------------------------------------------------------

  /** The exception the view model lets out: `AllSelectedAmount.ToString` on a null amount. */
  datatype ViewModelError = NullReference

  class SendAmountViewModel {
    var isMax: bool
    var amountText: string
    var feeChoice: FeeChoice
    var feeRate: Option<FeeRate>
    /** `AllSelectedAmount`: null (`None`) until `SetFees` first runs with an estimate. */
    var allSelectedAmount: Option<int>
    var estimatedBtcFee: int
    var feeTarget: int
    var minimumFeeTarget: int
    var maximumFeeTarget: int

    /** The constructor: the initial text, fee and choice, then the `FeeChoice` subscription,
        which has no `ObserveOn` and so runs `SetFees` before the constructor returns. The
        fee limits are still 0 then, so the Standard choice asks for target 0. */
    constructor (estimate: Option<FeeEstimate>, selected: seq<int>, svc: Services)
      requires estimate.Some? ==> |estimate.value.targets| > 0
      ensures !isMax && amountText == "0.0" && feeChoice == Standard
      ensures minimumFeeTarget == 0 && maximumFeeTarget == 0
      ensures estimate.None? ==>
        feeTarget == 0 && feeRate == None && estimatedBtcFee == 0 && allSelectedAmount == None
      ensures estimate.Some? ==>
        && feeTarget == Snap(FeeTargetFor(Standard, 0, 0), estimate.value.targets)
        && feeRate == estimate.value.rateFor(feeTarget)
        && estimatedBtcFee == (if feeRate.Some? then svc.totalFee(feeRate.value, VirtualSize(selected, "0.0", svc)) else 0)
        && allSelectedAmount == Some(MaxSendable(Sum(selected), estimatedBtcFee))
    {
      isMax := false;
      amountText := "0.0";
      estimatedBtcFee := 0;
      feeChoice := Standard;
      feeRate := None;
      allSelectedAmount := None;
      feeTarget := 0;
      minimumFeeTarget := 0;
      maximumFeeTarget := 0;
      new;
      SetFees(estimate, selected, svc);
    }

    /** `SetAmountIfMax`. A null `AllSelectedAmount` is not equal to zero, so the text
        formats it and throws. */
    method SetAmountIfMax(svc: Services) returns (r: Result<(), ViewModelError>)
      modifies this`amountText
      ensures !isMax ==> r.Success? && amountText == old(amountText)
      ensures isMax && allSelectedAmount.None? ==> r == Failure(NullReference) && amountText == old(amountText)
      ensures isMax && allSelectedAmount.Some? ==>
        var all := allSelectedAmount.value;
        r.Success? && amountText == MaxAmountText(all, estimatedBtcFee, svc.formatMoney(all))
    {
      r := Success(());
      if isMax {
        if allSelectedAmount.None? {
          return Failure(NullReference);
        }
        var all := allSelectedAmount.value;
        amountText := MaxAmountText(all, estimatedBtcFee, svc.formatMoney(all));
      }
    }

    /** The `IsMax` setter and its subscription: a change to true fills in the max text. */
    method SetIsMax(value: bool, svc: Services) returns (r: Result<(), ViewModelError>)
      modifies this`isMax, this`amountText
      ensures isMax == value
      ensures value && !old(isMax) && allSelectedAmount.None? ==> r == Failure(NullReference) && amountText == old(amountText)
      ensures value && !old(isMax) && allSelectedAmount.Some? ==>
        var all := allSelectedAmount.value;
        r.Success? && amountText == MaxAmountText(all, estimatedBtcFee, svc.formatMoney(all))
      ensures !value || old(isMax) ==> r.Success? && amountText == old(amountText)
    {
      r := Success(());
      if value != isMax {
        isMax := value;
        if value {
          r := SetAmountIfMax(svc);
        }
      }
    }

    /** The `AmountText` subscription, run with the new text `amount`. */
    method OnAmountText(amount: string, svc: Services) returns (r: Result<(), ViewModelError>)
      modifies this`amountText
      ensures isMax && allSelectedAmount.None? ==> r == Failure(NullReference) && amountText == old(amountText)
      ensures isMax && allSelectedAmount.Some? ==>
        var all := allSelectedAmount.value;
        r.Success? && amountText == MaxAmountText(all, estimatedBtcFee, svc.formatMoney(all))
      ensures !isMax ==> r.Success?
      ensures !isMax && Sanitise(amount) != amount ==> amountText == Sanitise(amount)
      ensures !isMax && Sanitise(amount) == amount ==> amountText == old(amountText)
    {
      if isMax {
        r := SetAmountIfMax(svc);
        return;
      }
      var betterAmount := SanitiseAmountText(amount);
      if betterAmount != amount {
        amountText := betterAmount;
      }
      r := Success(());
    }

    /** `SetFeeTargetLimits` */
    method SetFeeTargetLimits(estimate: Option<FeeEstimate>)
      requires estimate.Some? ==> |estimate.value.targets| > 0
      modifies this`minimumFeeTarget, this`maximumFeeTarget
      ensures estimate.Some? ==> minimumFeeTarget == MinOf(estimate.value.targets) && maximumFeeTarget == MaxOf(estimate.value.targets)
      ensures estimate.None? ==> minimumFeeTarget == DefaultMinimumFeeTarget && maximumFeeTarget == SevenDaysConfirmationTarget
    {
      if estimate.Some? {
        minimumFeeTarget := MinOf(estimate.value.targets);
        maximumFeeTarget := MaxOf(estimate.value.targets);
      } else {
        minimumFeeTarget := DefaultMinimumFeeTarget;
        maximumFeeTarget := SevenDaysConfirmationTarget;
      }
    }

    /** `SetFees`, with the current estimate and the amounts of the selected coins. */
    method SetFees(estimate: Option<FeeEstimate>, selected: seq<int>, svc: Services)
      requires estimate.Some? ==> |estimate.value.targets| > 0
      modifies this`feeTarget, this`feeRate, this`estimatedBtcFee, this`allSelectedAmount
      ensures estimate.None? ==>
        && feeTarget == old(feeTarget) && feeRate == old(feeRate)
        && estimatedBtcFee == old(estimatedBtcFee) && allSelectedAmount == old(allSelectedAmount)
      ensures estimate.Some? ==>
        && feeTarget == Snap(FeeTargetFor(feeChoice, minimumFeeTarget, maximumFeeTarget), estimate.value.targets)
        && feeRate == estimate.value.rateFor(feeTarget)
        && estimatedBtcFee == (if feeRate.Some? then svc.totalFee(feeRate.value, VirtualSize(selected, amountText, svc)) else 0)
        && allSelectedAmount == Some(MaxSendable(Sum(selected), estimatedBtcFee))
    {
      if estimate.Some? {
        var e := estimate.value;
        var target := FeeTargetFor(feeChoice, minimumFeeTarget, maximumFeeTarget);
        target := SnapToEstimate(target, e.targets);
        feeTarget := target;
        feeRate := e.rateFor(target);
        var vsize := EstimateVirtualSize(selected, amountText, svc);
        if feeRate.Some? {
          estimatedBtcFee := svc.totalFee(feeRate.value, vsize);
        } else {
          estimatedBtcFee := 0;
        }
        allSelectedAmount := Some(MaxSendable(Sum(selected), estimatedBtcFee));
      }
    }

    /** The `FeeChoice` setter and its subscription: a new choice re-runs `SetFees`. */
    method SetFeeChoice(choice: FeeChoice, estimate: Option<FeeEstimate>, selected: seq<int>, svc: Services)
      requires estimate.Some? ==> |estimate.value.targets| > 0
      modifies this`feeChoice, this`feeTarget, this`feeRate, this`estimatedBtcFee, this`allSelectedAmount
      ensures feeChoice == choice
      ensures choice == old(feeChoice) || estimate.None? ==>
        && feeTarget == old(feeTarget) && feeRate == old(feeRate)
        && estimatedBtcFee == old(estimatedBtcFee) && allSelectedAmount == old(allSelectedAmount)
      ensures choice != old(feeChoice) && estimate.Some? ==>
        && feeTarget == Snap(FeeTargetFor(choice, minimumFeeTarget, maximumFeeTarget), estimate.value.targets)
        && feeRate == estimate.value.rateFor(feeTarget)
        && estimatedBtcFee == (if feeRate.Some? then svc.totalFee(feeRate.value, VirtualSize(selected, amountText, svc)) else 0)
        && allSelectedAmount == Some(MaxSendable(Sum(selected), estimatedBtcFee))
    {
      if choice != feeChoice {
        feeChoice := choice;
        SetFees(estimate, selected, svc);
      }
    }

    /** The `AllFeeEstimateChanged` handler: new limits, the clamp, then `SetFees`. With an
        estimate `SetFees` overwrites the clamped target; without one the clamp stays. */
    method OnFeeEstimateChanged(estimate: Option<FeeEstimate>, selected: seq<int>, svc: Services)
      requires estimate.Some? ==> |estimate.value.targets| > 0
      modifies this`minimumFeeTarget, this`maximumFeeTarget, this`feeTarget, this`feeRate,
        this`estimatedBtcFee, this`allSelectedAmount
      ensures estimate.None? ==>
        && minimumFeeTarget == DefaultMinimumFeeTarget && maximumFeeTarget == SevenDaysConfirmationTarget
        && feeTarget == Clamp(old(feeTarget), DefaultMinimumFeeTarget, SevenDaysConfirmationTarget)
        && feeRate == old(feeRate) && estimatedBtcFee == old(estimatedBtcFee)
        && allSelectedAmount == old(allSelectedAmount)
      ensures estimate.Some? ==>
        var keys := estimate.value.targets;
        && minimumFeeTarget == MinOf(keys) && maximumFeeTarget == MaxOf(keys)
        && feeTarget == Snap(FeeTargetFor(feeChoice, MinOf(keys), MaxOf(keys)), keys)
        && feeRate == estimate.value.rateFor(feeTarget)
        && estimatedBtcFee == (if feeRate.Some? then svc.totalFee(feeRate.value, VirtualSize(selected, amountText, svc)) else 0)
        && allSelectedAmount == Some(MaxSendable(Sum(selected), estimatedBtcFee))
    {
      SetFeeTargetLimits(estimate);
      if feeTarget < minimumFeeTarget {
        feeTarget := minimumFeeTarget;
      } else if feeTarget > maximumFeeTarget {
        feeTarget := maximumFeeTarget;
      }
      SetFees(estimate, selected, svc);
    }
  }

  /** With at most one '.', the first one is the only one. */
  lemma OnlyDot(t: string, d: nat)
    requires Count(t, '.') <= 1 && d < |t| && IndexOf(t, '.', 0) == d
    ensures forall i :: 0 <= i < |t| && i != d ==> t[i] != '.'
  {
    forall i | 0 <= i < |t| && i != d
      ensures t[i] != '.'
    {
      if t[i] == '.' {
        if i < d { assert false; }
        else { CountTwo(t, '.', d, i); assert false; }
      }
    }
  }

  /** Two or more dots: cutting at the second one and then after eight decimals is the
      longest valid prefix. */
  lemma CutAtSecondDot(t: string, result: string)
    requires var d := IndexOf(t, '.', 0);
      d != -1 && IndexOf(t, '.', d + 1) != -1 &&
      var cut := t[..IndexOf(t, '.', d + 1)];
      var dot := IndexOf(cut, '.', 0);
      result == if dot != -1 && |cut| - dot > 8 then cut[..dot + 9] else cut
    ensures result == t[..LongestValid(t, |t|)]
  {
    var d := IndexOf(t, '.', 0);
    var e := IndexOf(t, '.', d + 1);
    var cut := t[..e];
    assert cut[d] == '.';
    assert IndexOf(cut, '.', 0) == d;
    CutTwoDots(t, d, e);
    if e - d > 8 {
      assert cut[..d + 9] == t[..d + 9];
    }
  }

  /** At most one dot: only the decimals are cut, after eight of them. */
  lemma CutDecimals(t: string, result: string)
    requires Count(t, '.') <= 1
    requires var dot := IndexOf(t, '.', 0);
      result == if dot != -1 && |t| - dot > 8 then t[..dot + 9] else t
    ensures result == t[..LongestValid(t, |t|)]
  {
    var d := IndexOf(t, '.', 0);
    assert t[..|t|] == t;
    if d == -1 {
      CutIsLongest(t, |t|);
    } else {
      OnlyDot(t, d);
      CutOneDot(t, d);
    }
  }

  /** The steps of the sanitiser end where `Sanitise` does. */
  lemma CutMatchesSanitise(amount: string, countDots: nat, result: string)
    requires countDots == Count(Normalised(amount), '.')
    requires var t := Normalised(amount);
      if countDots > 1 then
        var d := IndexOf(t, '.', 0);
        d != -1 && IndexOf(t, '.', d + 1) != -1 &&
        var cut := t[..IndexOf(t, '.', d + 1)];
        var dot := IndexOf(cut, '.', 0);
        result == if dot != -1 && |cut| - dot > 8 then cut[..dot + 9] else cut
      else
        var dot := IndexOf(t, '.', 0);
        result == if dot != -1 && |t| - dot > 8 then t[..dot + 9] else t
    ensures result == Sanitise(amount)
  {
    if countDots > 1 {
      CutAtSecondDot(Normalised(amount), result);
    } else {
      CutDecimals(Normalised(amount), result);
    }
  }
}
