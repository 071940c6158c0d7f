/** The wallet connection state and its `connect` fallback chain: Freighter,
    then an injected MetaMask provider, then a mock address
    (src/store/walletStore.ts). Every answer from outside the page is an input. */
module WalletStore {
  import opened Common

  /** The answers `connect` receives, in the order it may ask for them. */
  datatype ConnectInputs = ConnectInputs(
    freighterIsConnected: External<bool>,        // freighterApi.isConnected().isConnected
    freighterIsAllowed: External<bool>,          // freighterApi.isAllowed().isAllowed
    freighterSetAllowed: External<bool>,         // freighterApi.setAllowed().isAllowed
    freighterAddress: External<Option<string>>,  // freighterApi.getAddress().address
    ethereumInjected: bool,                      // window.ethereum is present
    ethereumAccounts: External<seq<string>>,     // eth_requestAccounts
    mockDigits: seq<nat>)                        // the 40 digits Math.random draws

  /** The random draws are 40 values in 0..15. */
  predicate ValidInputs(inputs: ConnectInputs)
  {
    |inputs.mockDigits| == 40 && forall i :: 0 <= i < 40 ==> inputs.mockDigits[i] < 16
  }

  const HexDigits: string := "0123456789abcdef"

  /** `'0x'` followed by each digit's `toString(16)`. */
  function MockAddress(digits: seq<nat>): (address: string)
    requires forall i :: 0 <= i < |digits| ==> digits[i] < 16
    ensures |address| == 2 + |digits|
    ensures address[..2] == "0x"
    ensures forall i :: 2 <= i < |address| ==> address[i] == HexDigits[digits[i - 2]]
  {
    "0x" + seq(|digits|, i requires 0 <= i < |digits| => HexDigits[digits[i]])
  }

  /** A mock address is 42 characters: "0x" and 40 lower-case hexadecimal digits. */
  lemma MockAddressShape(inputs: ConnectInputs)
    requires ValidInputs(inputs)
    ensures |MockAddress(inputs.mockDigits)| == 42
    ensures MockAddress(inputs.mockDigits)[0] == '0' && MockAddress(inputs.mockDigits)[1] == 'x'
    ensures forall i :: 2 <= i < 42 ==> MockAddress(inputs.mockDigits)[i] in HexDigits
  {
    var a := MockAddress(inputs.mockDigits);
    assert a[..2][0] == a[0] && a[..2][1] == a[1];
  }

  /** How the Freighter branch ends. */
  datatype FreighterStep = Refused | Address(address: string) | FallThrough

  /** The Freighter branch, run once `isConnected` has answered true. A refused permission
      request ends `connect`; any exception, and an empty or absent address, fall through. */
  function FreighterBranch(inputs: ConnectInputs): (step: FreighterStep)
  {
    match inputs.freighterIsAllowed
    case Threw(_) => FallThrough
    case Returned(allowed) =>
      if !allowed && inputs.freighterSetAllowed == Returned(false) then Refused
      else if !allowed && inputs.freighterSetAllowed.Threw? then FallThrough
      else match inputs.freighterAddress
        case Returned(Some(address)) => if address != "" then Address(address) else FallThrough
        case _ => FallThrough
  }

  /** What a call of `connect` does to the store. */
  datatype ConnectOutcome =
    | Rejected(message: string)   // the promise rejects; the state is untouched
    | Unchanged                   // returns early; the state is untouched
    | ConnectedTo(address: string)

  /** The specification of `connect`. */
  function ConnectOutcomeOf(inputs: ConnectInputs): (outcome: ConnectOutcome)
    requires ValidInputs(inputs)
  {
    match inputs.freighterIsConnected
    case Threw(message) => Rejected(message)
    case Returned(connected) =>
      var step := if connected then FreighterBranch(inputs) else FallThrough;
      match step
      case Refused => Unchanged
      case Address(address) => ConnectedTo(address)
      case FallThrough =>
        if inputs.ethereumInjected && inputs.ethereumAccounts.Returned? && |inputs.ethereumAccounts.value| > 0
        then ConnectedTo(inputs.ethereumAccounts.value[0])
        else ConnectedTo(MockAddress(inputs.mockDigits))
  }

  /** Two input sets that agree on everything Freighter answers. */
  predicate SameFreighterAnswers(a: ConnectInputs, b: ConnectInputs)
  {
    a.freighterIsConnected == b.freighterIsConnected
    && a.freighterIsAllowed == b.freighterIsAllowed
    && a.freighterSetAllowed == b.freighterSetAllowed
    && a.freighterAddress == b.freighterAddress
  }

  /** A refused permission request ends `connect` with the state unchanged, whatever
      MetaMask or the mock would have answered. */
  lemma PermissionRefusedStops(inputs: ConnectInputs)
    requires ValidInputs(inputs)
    requires inputs.freighterIsConnected == Returned(true)
    requires inputs.freighterIsAllowed == Returned(false)
    requires inputs.freighterSetAllowed == Returned(false)
    ensures ConnectOutcomeOf(inputs) == Unchanged
  {
  }

  /** A non-empty Freighter address is taken, and MetaMask is not consulted: any other
      answers from MetaMask or the random draws give the same outcome. */
  lemma FreighterAddressWins(inputs: ConnectInputs, other: ConnectInputs, address: string)
    requires ValidInputs(inputs) && ValidInputs(other) && SameFreighterAnswers(inputs, other)
    requires inputs.freighterIsConnected == Returned(true)
    requires inputs.freighterIsAllowed == Returned(true) || inputs.freighterSetAllowed == Returned(true)
    requires inputs.freighterIsAllowed.Returned?
    requires inputs.freighterAddress == Returned(Some(address)) && address != ""
    ensures ConnectOutcomeOf(inputs) == ConnectOutcomeOf(other) == ConnectedTo(address)
  {
  }

  /** When Freighter does not produce an address, the first MetaMask account is taken. */
  lemma MetaMaskFallback(inputs: ConnectInputs)
    requires ValidInputs(inputs)
    requires inputs.freighterIsConnected.Returned?
    requires inputs.freighterIsConnected.value ==> FreighterBranch(inputs) == FallThrough
    requires inputs.ethereumInjected && inputs.ethereumAccounts.Returned?
    requires |inputs.ethereumAccounts.value| > 0
    ensures ConnectOutcomeOf(inputs) == ConnectedTo(inputs.ethereumAccounts.value[0])
  {
  }

  /** When Freighter does not produce an address and MetaMask yields no account (no provider,
      a thrown request or an empty list), `connect` connects to the mock address. */
  lemma MockFallback(inputs: ConnectInputs)
    requires ValidInputs(inputs)
    requires inputs.freighterIsConnected.Returned?
    requires inputs.freighterIsConnected.value ==> FreighterBranch(inputs) == FallThrough
    requires !(inputs.ethereumInjected && inputs.ethereumAccounts.Returned? && |inputs.ethereumAccounts.value| > 0)
    ensures ConnectOutcomeOf(inputs) == ConnectedTo(MockAddress(inputs.mockDigits))
    ensures |ConnectOutcomeOf(inputs).address| == 42
    ensures ConnectOutcomeOf(inputs).address[..2] == "0x"
  {
  }

  /** `connect` rejects exactly when Freighter's connection check throws, and returns with
      the state untouched exactly after a refused permission request. */
  lemma ConnectOutcomes(inputs: ConnectInputs)
    requires ValidInputs(inputs)
    ensures ConnectOutcomeOf(inputs).Unchanged? <==>
      inputs.freighterIsConnected == Returned(true) && inputs.freighterIsAllowed == Returned(false)
      && inputs.freighterSetAllowed == Returned(false)
    ensures ConnectOutcomeOf(inputs).Rejected? <==> inputs.freighterIsConnected.Threw?
  {
  }

  class Wallet {
    var isConnected: bool
    var address: Option<string>

    /** Connected exactly when an address is held. */
    ghost predicate Valid()
      reads this
    {
      isConnected <==> address.Some?
    }

    constructor ()
      ensures Valid()
      ensures !isConnected && address == None
    {
      isConnected := false;
      address := None;
    }

    /** Walks the fallback chain. Returns the rejection message when the first Freighter
        call throws (that call is outside the `try`). */
    method Connect(inputs: ConnectInputs) returns (rejection: Option<string>)
      requires Valid() && ValidInputs(inputs)
      modifies this
      ensures Valid()
      ensures ConnectOutcomeOf(inputs).Rejected? ==>
        rejection == Some(ConnectOutcomeOf(inputs).message)
        && isConnected == old(isConnected) && address == old(address)
      ensures ConnectOutcomeOf(inputs).Unchanged? ==>
        rejection == None && isConnected == old(isConnected) && address == old(address)
      ensures ConnectOutcomeOf(inputs).ConnectedTo? ==>
        rejection == None && isConnected && address == Some(ConnectOutcomeOf(inputs).address)
    {
      rejection := None;
      if inputs.freighterIsConnected.Threw? {
        rejection := Some(inputs.freighterIsConnected.message);
        return;
      }
      if inputs.freighterIsConnected.value {
        // the try block: any exception below leaves it for the MetaMask check
        if inputs.freighterIsAllowed.Returned? {
          var permitted := true;
          if !inputs.freighterIsAllowed.value {
            if inputs.freighterSetAllowed == Returned(false) {
              return;
            }
            permitted := inputs.freighterSetAllowed.Returned?;
          }
          if permitted && inputs.freighterAddress.Returned? {
            var addressData := inputs.freighterAddress.value;
            if addressData.Some? && addressData.value != "" {
              isConnected, address := true, Some(addressData.value);
              return;
            }
          }
        }
      }
      if inputs.ethereumInjected && inputs.ethereumAccounts.Returned? {
        var accounts := inputs.ethereumAccounts.value;
        if |accounts| > 0 {
          isConnected, address := true, Some(accounts[0]);
          return;
        }
      }
      var mockAddress := MockAddress(inputs.mockDigits);
      isConnected, address := true, Some(mockAddress);
    }

    method Disconnect()
      modifies this
      ensures Valid()
      ensures !isConnected && address == None
    {
      isConnected, address := false, None;
    }
  }
}
