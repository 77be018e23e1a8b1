/**
 * The wallet page: the mock asset list and its total value, the lookup of
 * the selected asset, the withdrawal form with its ordered validation, the
 * MAX button, and the "you will receive" amount net of the network fee.
 */
module Wallet {
  import opened Decimal
  import opened Wrappers
  import opened Seqs

  datatype Asset = Asset(coin: string, name: string, total: real, available: real, inOrder: real, value: real)

  const Assets: seq<Asset> := [
    Asset("BTC", "Bitcoin", 0.5432, 0.5, 0.0432, 16423.56),
    Asset("ETH", "Ethereum", 4.2345, 4.0, 0.2345, 8654.32),
    Asset("USDT", "Tether", 12500.75, 10000.0, 2500.75, 12500.75),
    Asset("XRP", "Ripple", 5000.0, 5000.0, 0.0, 2839.5),
    Asset("SOL", "Solana", 50.0, 45.0, 5.0, 5289.0)
  ]

  // ---------------------------------------------------------------------
  // Portfolio value
  // ---------------------------------------------------------------------

  function Values(assets: seq<Asset>): (r: seq<real>)
    ensures |r| == |assets|
    ensures forall i :: 0 <= i < |assets| ==> r[i] == assets[i].value
  {
    seq(|assets|, i requires 0 <= i < |assets| => assets[i].value)
  }

  /** `assets.reduce((total, asset) => total + asset.value, 0)`. */
  function TotalValue(assets: seq<Asset>): real {
    FoldSum(0.0, Values(assets))
  }

  /** The portfolio total is the sum of the asset values. */
  lemma TotalValueIsSum(assets: seq<Asset>)
    ensures TotalValue(assets) == Sum(Values(assets))
  {
    FoldSumIsSum(0.0, Values(assets));
  }

  /** For the mock assets the total shown is 45707.13. */
  lemma MockTotalValue()
    ensures TotalValue(Assets) == 45707.13
  {
    TotalValueIsSum(Assets);
    assert Values(Assets) == [16423.56, 8654.32, 12500.75, 2839.5, 5289.0];
  }

  // ---------------------------------------------------------------------
  // Asset lookup
  // ---------------------------------------------------------------------

  /** `assets.find(a => a.coin === coin)`: the first asset with that coin, if any. */
  function FindAsset(assets: seq<Asset>, coin: string): (r: Option<Asset>)
    ensures r.None? <==> forall i :: 0 <= i < |assets| ==> assets[i].coin != coin
    ensures r.Some? ==> r.value.coin == coin && r.value in assets
  {
    if assets == [] then None
    else if assets[0].coin == coin then Some(assets[0])
    else FindAsset(assets[1..], coin)
  }

  /** The asset found is the one at the first index holding that coin. */
  lemma {:induction false} FindAssetIsFirst(assets: seq<Asset>, coin: string, i: nat)
    requires i < |assets| && assets[i].coin == coin
    requires forall j :: 0 <= j < i ==> assets[j].coin != coin
    ensures FindAsset(assets, coin) == Some(assets[i])
  {
    if i > 0 {
      assert assets[0].coin != coin;
      FindAssetIsFirst(assets[1..], coin, i - 1);
    }
  }

  // ---------------------------------------------------------------------
  // Withdrawal
  // ---------------------------------------------------------------------

  datatype WithdrawalOutcome = Rejected(message: string) | Submitted(amount: real, coin: string)

  const MissingFieldsMessage: string := "Please enter both amount and address"
  const InvalidAssetMessage: string := "Invalid asset selected"
  const InvalidAmountMessage: string := "Please enter a valid amount"

  function InsufficientMessage(coin: string): string {
    "Insufficient " + coin + " balance"
  }

  /**
   * The withdrawal decision, guards in the handler's order: a missing amount
   * or address, an unknown asset, a non-positive amount, an amount above
   * the available balance. The first guard that fails decides the message.
   */
  function WithdrawalResult(assets: seq<Asset>, selected: string, amount: Option<real>, address: string): (r: WithdrawalOutcome)
    ensures amount.None? || address == [] ==> r == Rejected(MissingFieldsMessage)
    ensures amount.Some? && address != [] && FindAsset(assets, selected).None? ==> r == Rejected(InvalidAssetMessage)
    ensures amount.Some? && address != [] && FindAsset(assets, selected).Some? && amount.value <= 0.0 ==>
              r == Rejected(InvalidAmountMessage)
    ensures (amount.Some? && address != [] && FindAsset(assets, selected).Some? && amount.value > 0.0 &&
             amount.value > FindAsset(assets, selected).value.available) ==> r == Rejected(InsufficientMessage(selected))
    ensures r.Submitted? ==> Some(r.amount) == amount && r.coin == selected
  {
    if amount.None? || address == [] then Rejected(MissingFieldsMessage)
    else
      var asset := FindAsset(assets, selected);
      if asset.None? then Rejected(InvalidAssetMessage)
      else if amount.value <= 0.0 then Rejected(InvalidAmountMessage)
      else if amount.value > asset.value.available then Rejected(InsufficientMessage(selected))
      else Submitted(amount.value, selected)
  }

  /**
   * A withdrawal goes through exactly when both fields are filled in and the
   * amount is positive and at most the available balance of the first listed
   * asset with the selected coin.
   */
  lemma WithdrawalAcceptedIff(assets: seq<Asset>, selected: string, amount: Option<real>, address: string)
    ensures WithdrawalResult(assets, selected, amount, address).Submitted? <==>
              amount.Some? && address != [] &&
              exists i :: 0 <= i < |assets| && assets[i].coin == selected &&
                          (forall j :: 0 <= j < i ==> assets[j].coin != selected) &&
                          0.0 < amount.value <= assets[i].available
  {
    forall i | 0 <= i < |assets| && assets[i].coin == selected && (forall j :: 0 <= j < i ==> assets[j].coin != selected)
      ensures FindAsset(assets, selected) == Some(assets[i])
    {
      FindAssetIsFirst(assets, selected, i);
    }
    if FindAsset(assets, selected).Some? {
      var i := FirstIndex(assets, selected);
      assert assets[i].coin == selected;
    }
  }

  /** The first index holding `coin`, when some index does. */
  function FirstIndex(assets: seq<Asset>, coin: string): (i: nat)
    requires exists k :: 0 <= k < |assets| && assets[k].coin == coin
    ensures i < |assets| && assets[i].coin == coin
    ensures forall j :: 0 <= j < i ==> assets[j].coin != coin
  {
    if assets[0].coin == coin then 0
    else
      assert exists k :: 0 <= k < |assets[1..]| && assets[1..][k].coin == coin by {
        var k :| 0 <= k < |assets| && assets[k].coin == coin;
        assert assets[1..][k - 1] == assets[k];
      }
      1 + FirstIndex(assets[1..], coin)
  }

  /** Withdrawing the whole available balance is allowed; a cent more is not. */
  lemma FullBalanceAccepted()
    ensures WithdrawalResult(Assets, "BTC", Some(0.5), "bc1qaddress") == Submitted(0.5, "BTC")
    ensures WithdrawalResult(Assets, "BTC", Some(0.51), "bc1qaddress") == Rejected(InsufficientMessage("BTC"))
    ensures WithdrawalResult(Assets, "DOGE", Some(1.0), "D7address") == Rejected(InvalidAssetMessage)
  {
    assert FindAsset(Assets, "BTC") == Some(Assets[0]);
    assert Assets[0].coin != "DOGE" && Assets[1].coin != "DOGE" && Assets[2].coin != "DOGE";
    assert Assets[3].coin != "DOGE" && Assets[4].coin != "DOGE";
  }

  /** The network fee shown on the form. */
  const NetworkFee: real := 0.0005

  /** `Math.max(0, amount - 0.0005)` to 6 decimals. */
  function NetOfFee(amount: real): (r: real)
    ensures r >= 0.0 && IsDecimal(r, 6)
    ensures amount <= NetworkFee ==> r == 0.0
    ensures amount > NetworkFee ==> amount - NetworkFee - HalfUnit(6) <= r <= amount - NetworkFee + HalfUnit(6)
    ensures amount > 0.0 ==> r < amount
  {
    var d := if amount - NetworkFee > 0.0 then amount - NetworkFee else 0.0;
    RoundToInteger(0, 6);
    assert HalfUnit(6) == 0.0000005 by { assert Pow10(6) == 1000000.0; }
    RoundTo(d, 6)
  }

  /** The "you will receive" row: nothing ("0.0") while the amount is empty. */
  function Received(amount: Option<real>): (r: real)
    ensures amount.None? ==> r == 0.0
    ensures amount.Some? ==> r == NetOfFee(amount.value)
  {
    if amount.Some? then NetOfFee(amount.value) else 0.0
  }

  /** The wallet page's state fields. */
  class WalletPage {
    var activeTab: string
    var selectedAsset: string
    var withdrawalAmount: Option<real>
    var withdrawalAddress: string

    constructor ()
      ensures activeTab == "overview" && selectedAsset == [] && withdrawalAmount == None && withdrawalAddress == []
    {
      activeTab := "overview";
      selectedAsset := [];
      withdrawalAmount := None;
      withdrawalAddress := [];
    }

    /** The "Withdraw" button of an asset row: select it, clear the form, open the withdraw tab. */
    method HandleWithdrawal(coin: string)
      modifies this
      ensures selectedAsset == coin && withdrawalAmount == None && withdrawalAddress == []
      ensures activeTab == "withdraw"
    {
      selectedAsset := coin;
      withdrawalAmount := None;
      withdrawalAddress := [];
      activeTab := "withdraw";
    }

    /** The MAX button: the selected asset's available balance, if the asset is listed. */
    method Max()
      modifies this
      ensures FindAsset(Assets, selectedAsset).Some? ==>
                withdrawalAmount == Some(FindAsset(Assets, selectedAsset).value.available)
      ensures FindAsset(Assets, selectedAsset).None? ==> withdrawalAmount == old(withdrawalAmount)
      ensures selectedAsset == old(selectedAsset) && withdrawalAddress == old(withdrawalAddress)
      ensures activeTab == old(activeTab)
    {
      var asset := FindAsset(Assets, selectedAsset);
      if asset.Some? {
        withdrawalAmount := Some(asset.value.available);
      }
    }

    /**
     * Submitting the withdrawal: a rejection changes nothing; a submitted
     * request clears amount and address and keeps the selected asset.
     */
    method SubmitWithdrawal() returns (outcome: WithdrawalOutcome)
      modifies this
      ensures outcome == WithdrawalResult(Assets, old(selectedAsset), old(withdrawalAmount), old(withdrawalAddress))
      ensures selectedAsset == old(selectedAsset) && activeTab == old(activeTab)
      ensures outcome.Rejected? ==> withdrawalAmount == old(withdrawalAmount) && withdrawalAddress == old(withdrawalAddress)
      ensures outcome.Submitted? ==> withdrawalAmount == None && withdrawalAddress == []
    {
      outcome := WithdrawalResult(Assets, selectedAsset, withdrawalAmount, withdrawalAddress);
      if outcome.Submitted? {
        withdrawalAmount := None;
        withdrawalAddress := [];
      }
    }
  }

  /** MAX followed by submit (with an address) always goes through for a listed asset with a positive balance. */
  lemma MaxIsAccepted(coin: string, address: string)
    requires address != [] && FindAsset(Assets, coin).Some? && FindAsset(Assets, coin).value.available > 0.0
    ensures WithdrawalResult(Assets, coin, Some(FindAsset(Assets, coin).value.available), address).Submitted?
  {
  }
}
