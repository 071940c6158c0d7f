/** The decision logic of the client-side ledger helpers
    (src/utils/stellarService.ts): which public key the wallet yields, which
    balance is reported, and where a payment fails. Horizon and wallet-extension
    answers are inputs. */
module StellarService {
  import opened Common

  /** `StellarService.getPublicKey`: null unless Freighter is connected, permission was
      already granted and a non-empty address comes back; any exception gives null. */
  function GetPublicKey(isConnected: External<bool>, isAllowed: External<bool>,
                        address: External<Option<string>>): (key: Option<string>)
    ensures key.Some? <==>
      isConnected == Returned(true) && isAllowed == Returned(true)
      && address.Returned? && address.value.Some? && address.value.value != ""
    ensures key.Some? ==> key.value == address.value.value && key.value != ""
  {
    if isConnected.Threw? || !isConnected.value then None
    else if isAllowed.Threw? || !isAllowed.value then None
    else if address.Threw? then None
    else match address.value
      case Some(a) => if a != "" then Some(a) else None
      case None => None
  }

  /** One entry of `account.balances` as Horizon reports it. */
  datatype Balance = Balance(assetType: string, assetCode: Option<string>, balance: string)

  const DefaultAssetCode: string := "XLM"

  /** The `find` predicate of `getAccountBalance`. */
  predicate MatchesAsset(b: Balance, assetCode: string)
  {
    (b.assetType == "native" && assetCode == "XLM") || b.assetCode == Some(assetCode)
  }

  /** Entry `k` matches and no earlier entry does. */
  predicate IsFirstMatch(balances: seq<Balance>, assetCode: string, k: int)
  {
    0 <= k < |balances| && MatchesAsset(balances[k], assetCode)
    && forall j :: 0 <= j < k ==> !MatchesAsset(balances[j], assetCode)
  }

  /** The index `balances.find` stops at: the first matching entry, if any. */
  function FindBalance(balances: seq<Balance>, assetCode: string): (k: Option<nat>)
    ensures k.Some? ==> k.value < |balances| && MatchesAsset(balances[k.value], assetCode)
    ensures k.Some? ==> forall j :: 0 <= j < k.value ==> !MatchesAsset(balances[j], assetCode)
    ensures k.None? ==> forall j :: 0 <= j < |balances| ==> !MatchesAsset(balances[j], assetCode)
  {
    if balances == [] then None
    else if MatchesAsset(balances[0], assetCode) then Some(0)
    else match FindBalance(balances[1..], assetCode)
      case Some(i) => Some(i + 1)
      case None => None
  }

  /** `getAccountBalance(publicKey, assetCode)` given the answer of `loadAccount`:
      the balance of the first matching entry, or "0" when none matches or the load fails. */
  function GetAccountBalance(account: External<seq<Balance>>, assetCode: string): (amount: string)
    ensures account.Threw? ==> amount == "0"
    ensures account.Returned? ==>
              forall k :: IsFirstMatch(account.value, assetCode, k) ==> amount == account.value[k].balance
    ensures account.Returned? && (forall j :: 0 <= j < |account.value| ==> !MatchesAsset(account.value[j], assetCode))
      ==> amount == "0"
  {
    match account
    case Threw(_) => "0"
    case Returned(balances) =>
      match FindBalance(balances, assetCode)
      case Some(k) => balances[k].balance
      case None => "0"
  }

  /** With the default asset code, a native entry reports its balance when nothing before it
      is native or coded "XLM". */
  lemma DefaultFindsNative(balances: seq<Balance>, k: nat)
    requires k < |balances| && balances[k].assetType == "native"
    requires forall j :: 0 <= j < k ==> balances[j].assetType != "native" && balances[j].assetCode != Some("XLM")
    ensures GetAccountBalance(Returned(balances), DefaultAssetCode) == balances[k].balance
  {
  }

  /** The `find` predicate also matches an issued asset coded "XLM": such an entry listed
      before the native one is what the default query reports. */
  lemma IssuedXlmShadowsNative(issuer: string, issued: string, native: string)
    requires issuer != "native"
    ensures GetAccountBalance(Returned([Balance(issuer, Some("XLM"), issued), Balance("native", None, native)]),
                              DefaultAssetCode) == issued
  {
  }

  /** The network steps `sendPayment` takes, in order. */
  datatype Step = LoadAccount | BuildTransaction | SignTransaction | SubmitTransaction

  /** What Freighter's `signTransaction` resolves to; an empty `error` is no error. */
  datatype SignResponse = SignResponse(error: string, signedTxXdr: string)

  /** The settled promise of `sendPayment` and the steps taken before it settled. */
  datatype PaymentRun = PaymentRun(result: Result<string>, steps: seq<Step>)

  const NoSourceKey: string := "Source public key not available"

  /** `sendPayment` given the key `getPublicKey` produced and the answers of each later step.
      `submit` covers decoding the signed envelope and submitting it. */
  function SendPayment(sourceKey: Option<string>, load: External<()>, build: External<string>,
                       sign: External<SignResponse>, submit: External<string>): (run: PaymentRun)
    ensures sourceKey.None? ==> run == PaymentRun(Err(NoSourceKey), [])
    ensures SubmitTransaction in run.steps ==>
      run.steps == [LoadAccount, BuildTransaction, SignTransaction, SubmitTransaction]
      && sourceKey.Some? && load.Returned? && build.Returned? && sign.Returned? && sign.value.error == ""
    ensures run.result.Ok? <==> SubmitTransaction in run.steps && submit.Returned?
    ensures run.result.Ok? ==> submit.Returned? && run.result.value == submit.value
    ensures run.result.Err? && submit.Returned? ==> SubmitTransaction !in run.steps
  {
    if sourceKey.None? || sourceKey.value == "" then PaymentRun(Err(NoSourceKey), [])
    else if load.Threw? then PaymentRun(Err(load.message), [LoadAccount])
    else if build.Threw? then PaymentRun(Err(build.message), [LoadAccount, BuildTransaction])
    else if sign.Threw? then PaymentRun(Err(sign.message), [LoadAccount, BuildTransaction, SignTransaction])
    else if sign.value.error != "" then PaymentRun(Err(sign.value.error), [LoadAccount, BuildTransaction, SignTransaction])
    else match submit
      case Threw(message) => PaymentRun(Err(message), [LoadAccount, BuildTransaction, SignTransaction, SubmitTransaction])
      case Returned(response) => PaymentRun(Ok(response), [LoadAccount, BuildTransaction, SignTransaction, SubmitTransaction])
  }

  /** A signing error surfaces as the failure's message, and nothing is submitted. */
  lemma SigningErrorStopsPayment(key: string, load: External<()>, build: External<string>,
                                 response: SignResponse, submit: External<string>)
    requires key != "" && load.Returned? && build.Returned? && response.error != ""
    ensures SendPayment(Some(key), load, build, Returned(response), submit)
            == PaymentRun(Err(response.error), [LoadAccount, BuildTransaction, SignTransaction])
  {
  }

  /** When the wallet yields no key, the payment fails before any account is loaded. */
  lemma NoKeyNoNetwork(isConnected: External<bool>, isAllowed: External<bool>, address: External<Option<string>>,
                       load: External<()>, build: External<string>, sign: External<SignResponse>, submit: External<string>)
    requires isConnected != Returned(true) || isAllowed != Returned(true)
    ensures SendPayment(GetPublicKey(isConnected, isAllowed, address), load, build, sign, submit)
            == PaymentRun(Err(NoSourceKey), [])
  {
  }
}
