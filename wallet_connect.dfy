/** The wallet button: its label, what a click does, and the loading flag around
    `connect` (src/components/ui/WalletConnect.tsx). */
module WalletConnect {
  import opened Common
  import WalletStore

  const ConnectingLabel: string := "Bağlanıyor..."
  const InstallLabel: string := "Freighter Yükle"
  const ConnectLabel: string := "Cüzdan Bağla"
  const FreighterInstallPage: string := "https://www.freighter.app/"

  /** `s.slice(0, n)` for n >= 0. */
  function Slice0(s: string, n: nat): (r: string)
    ensures |r| == Min(n, |s|) && r == s[..|r|]
  {
    s[..Min(n, |s|)]
  }

  /** `s.slice(-n)` for n > 0: the last n characters, or all of a shorter string. */
  function SliceLast(s: string, n: nat): (r: string)
    requires n > 0
    ensures |r| == Min(n, |s|) && r == s[|s| - |r|..]
  {
    s[|s| - Min(n, |s|)..]
  }

  /** `${address?.slice(0, 6)}...${address?.slice(-4)}`; a null address renders as "undefined". */
  function ShortAddress(address: Option<string>): (text: string)
  {
    match address
    case Some(a) => Slice0(a, 6) + "..." + SliceLast(a, 4)
    case None => "undefined...undefined"
  }

  /** The button label. `freighterAvailable` is null until the availability check answers. */
  function ButtonText(isLoading: bool, isConnected: bool, address: Option<string>,
                      freighterAvailable: Option<bool>): (text: string)
  {
    if isLoading then ConnectingLabel
    else if isConnected then ShortAddress(address)
    else if freighterAvailable == Some(false) then InstallLabel
    else ConnectLabel
  }

  /** While loading the label says so, whatever else holds. */
  lemma LoadingLabelWins(isConnected: bool, address: Option<string>, freighterAvailable: Option<bool>)
    ensures ButtonText(true, isConnected, address, freighterAvailable) == ConnectingLabel
  {
  }

  /** Connected with an address of at least six characters, the label is the address's
      first six characters, "...", and its last four. */
  lemma ConnectedLabelShowsEnds(address: string, freighterAvailable: Option<bool>)
    requires |address| >= 6
    ensures var text := ButtonText(false, true, Some(address), freighterAvailable);
      |text| == 13 && text[..6] == address[..6] && text[6..9] == "..."
      && text[9..] == address[|address| - 4..]
  {
    var text := ButtonText(false, true, Some(address), freighterAvailable);
    assert text == address[..6] + "..." + address[|address| - 4..];
  }

  /** Not loading and not connected, the install prompt shows exactly when Freighter is
      known to be missing; null and true both give the connect prompt. */
  lemma DisconnectedLabel(address: Option<string>, freighterAvailable: Option<bool>)
    ensures ButtonText(false, false, address, freighterAvailable) ==
      (if freighterAvailable == Some(false) then InstallLabel else ConnectLabel)
    ensures ButtonText(false, false, address, freighterAvailable) != ConnectingLabel
  {
  }

  /** What a click does. */
  datatype Action = Ignored | OpenInstallPage(url: string) | Disconnect | Connect

  /** `handleButtonClick` followed by the first test of `handleConnect`. */
  function ClickAction(freighterAvailable: Option<bool>, isConnected: bool): (action: Action)
    ensures action == Connect <==> !isConnected && freighterAvailable != Some(false)
    ensures action == Disconnect <==> isConnected
    ensures action.OpenInstallPage? <==> !isConnected && freighterAvailable == Some(false)
    ensures action.OpenInstallPage? ==> action.url == FreighterInstallPage
  {
    if freighterAvailable == Some(false) && !isConnected then OpenInstallPage(FreighterInstallPage)
    else if isConnected then Disconnect
    else Connect
  }

  /** The address the store holds after `connect` ran on a disconnected store, whether
      the call returned, returned early or rejected. */
  function ConnectedAddress(inputs: WalletStore.ConnectInputs): (address: Option<string>)
    requires WalletStore.ValidInputs(inputs)
  {
    match WalletStore.ConnectOutcomeOf(inputs)
    case ConnectedTo(address) => Some(address)
    case _ => None
  }

  class WalletButton {
    const wallet: WalletStore.Wallet
    var isLoading: bool
    var freighterAvailable: Option<bool>

    constructor (wallet: WalletStore.Wallet)
      ensures this.wallet == wallet
      ensures !isLoading && freighterAvailable == None
    {
      this.wallet := wallet;
      isLoading := false;
      freighterAvailable := None;
    }

    /** The label for the current state. */
    function Label(): (text: string)
      reads this, wallet
    {
      ButtonText(isLoading, wallet.isConnected, wallet.address, freighterAvailable)
    }

    /** The mount-time availability check: the answer of `isConnected`, or false when it throws. */
    method CheckFreighterWallet(answer: External<bool>)
      modifies this
      ensures isLoading == old(isLoading)
      ensures freighterAvailable == Some(if answer.Returned? then answer.value else false)
    {
      match answer
      case Returned(available) => freighterAvailable := Some(available);
      case Threw(_) => freighterAvailable := Some(false);
    }

    /** `handleConnect`: disconnects a connected wallet; otherwise raises the loading flag,
        awaits `connect`, swallows its rejection and lowers the flag again.
        `loadingDuringConnect` records the flag as `connect` starts; it stays raised for the
        whole call because `Wallet.Connect` may modify only the wallet, never this button. */
    method HandleConnect(inputs: WalletStore.ConnectInputs) returns (action: Action, ghost loadingDuringConnect: bool)
      requires wallet.Valid() && WalletStore.ValidInputs(inputs)
      modifies this, wallet
      ensures wallet.Valid()
      ensures freighterAvailable == old(freighterAvailable)
      ensures old(wallet.isConnected) ==> action == Disconnect && !wallet.isConnected && isLoading == old(isLoading)
      ensures !old(wallet.isConnected) ==> action == Connect && loadingDuringConnect && !isLoading
      ensures !old(wallet.isConnected) ==> wallet.address == ConnectedAddress(inputs)
    {
      loadingDuringConnect := false;
      if wallet.isConnected {
        wallet.Disconnect();
        return Disconnect, loadingDuringConnect;
      }
      isLoading := true;
      loadingDuringConnect := isLoading;
      var _ := wallet.Connect(inputs);
      isLoading := false;
      action := Connect;
    }

    /** A click on the button, which is disabled while loading: a disabled button ignores it;
        otherwise a missing Freighter on a disconnected wallet opens the install page
        without calling `connect`, and anything else goes to `handleConnect`. */
    method Click(inputs: WalletStore.ConnectInputs) returns (action: Action)
      requires wallet.Valid() && WalletStore.ValidInputs(inputs)
      modifies this, wallet
      ensures wallet.Valid()
      ensures freighterAvailable == old(freighterAvailable)
      ensures old(isLoading) ==> action == Ignored && unchanged(this, wallet) && Label() == ConnectingLabel
      ensures !old(isLoading) ==> action == ClickAction(old(freighterAvailable), old(wallet.isConnected)) && !isLoading
      ensures action.OpenInstallPage? ==> unchanged(wallet)
      ensures action == Disconnect ==> !wallet.isConnected && wallet.address == None
      ensures action == Connect ==> wallet.address == ConnectedAddress(inputs)
    {
      if isLoading {
        return Ignored;
      }
      if freighterAvailable == Some(false) && !wallet.isConnected {
        return OpenInstallPage(FreighterInstallPage);
      }
      ghost var loadingDuringConnect;
      action, loadingDuringConnect := HandleConnect(inputs);
    }
  }
}
