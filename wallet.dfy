/** The wallet button: connecting through the browser wallet, the silent reconnect on mount,
    the reaction to an account switch, and the record of what the parent was told. */
module Wallet {
  import opened Common
  import opened Text

  const ConnectFailed := "Failed to connect wallet"

  /** How `connectWallet()` followed by `signer.getAddress()` ends: with the signer (whose
      address the call returns), or by throwing. */
  datatype Connection = Connected(signer: Signer) | Refused

  /** What the button shows: nothing connected gives the connect button (`None`), otherwise the
      badge with the shortened address. */
  function Badge(address: string): (r: Option<string>)
    ensures r.None? <==> address == ""
    ensures r.Some? && |address| >= 10 ==>
      |r.value| == 13 && r.value[..6] == address[..6] && r.value[6..9] == "..." && r.value[9..] == address[|address| - 4..]
  {
    if address == "" then None else Some(Shorten(address))
  }

  /** What an `accountsChanged` event asks for. */
  datatype AccountsAction = Disconnect | Reconnect | Ignore

  /** The event handler's decision for the account list `accounts`, given the address shown. */
  function OnAccounts(accounts: seq<string>, address: string): (r: AccountsAction)
    ensures r == Disconnect <==> accounts == []
    ensures r == Reconnect <==> accounts != [] && accounts[0] != address
    ensures r == Ignore <==> accounts != [] && accounts[0] == address
  {
    if |accounts| == 0 then Disconnect
    else if accounts[0] != address then Reconnect
    else Ignore
  }

  /** An event whose first account is the address already shown asks for nothing. */
  lemma SecondEventIgnored(accounts: seq<string>)
    requires accounts != []
    ensures OnAccounts(accounts, accounts[0]) == Ignore
  {
  }

  /** The address the parent was last told about: `""` before any call and after `onConnect(null)`. */
  function LastReported(reports: seq<Option<Signer>>): string {
    if reports == [] then ""
    else match reports[|reports| - 1]
      case None => ""
      case Some(s) => s.address
  }

  /** The state of the wallet button. `reports` records the arguments of every `onConnect`
      call, in order; `listening` says whether the wallet event handlers are registered. */
  class WalletConnection {
    var address: string
    var error: string
    var isConnecting: bool
    var isMounted: bool
    var listening: bool
    var reports: seq<Option<Signer>>

    /** The address shown is the one of the signer the parent was last given. */
    predicate InSync()
      reads this
    {
      address == LastReported(reports)
    }

    constructor ()
      ensures address == "" && error == "" && !isConnecting && !isMounted && !listening && reports == []
      ensures InSync()
    {
      address, error, isConnecting, isMounted, listening, reports := "", "", false, false, false, [];
    }

    /** The synchronous start of `handleConnect`; a second click while connecting does nothing. */
    method BeginConnect() returns (started: bool)
      modifies this`isConnecting, this`error
      ensures started <==> !old(isConnecting)
      ensures !started ==> unchanged(this)
      ensures started ==> isConnecting && error == ""
    {
      if isConnecting {
        return false;
      }
      isConnecting := true;
      error := "";
      started := true;
    }

    /** The rest of `handleConnect` once the wallet has answered. */
    method FinishConnect(outcome: Connection)
      modifies this`address, this`error, this`isConnecting, this`reports
      ensures !isConnecting
      ensures outcome.Connected? ==>
        address == outcome.signer.address && reports == old(reports) + [Some(outcome.signer)] && error == old(error)
      ensures outcome.Refused? ==>
        address == old(address) && reports == old(reports) && error == ConnectFailed
      ensures old(InSync()) ==> InSync()
    {
      if outcome.Connected? {
        address := outcome.signer.address;
        reports := reports + [Some(outcome.signer)];
      } else {
        error := ConnectFailed;
      }
      isConnecting := false;
    }

    /** `handleConnect` run without interruption. */
    method HandleConnect(outcome: Connection) returns (started: bool)
      modifies this`address, this`error, this`isConnecting, this`reports
      ensures started <==> !old(isConnecting)
      ensures !started ==> unchanged(this)
      ensures started ==> !isConnecting
      ensures started && outcome.Connected? ==>
        address == outcome.signer.address && reports == old(reports) + [Some(outcome.signer)] && error == ""
      ensures started && outcome.Refused? ==>
        address == old(address) && reports == old(reports) && error == ConnectFailed
      ensures old(InSync()) ==> InSync()
    {
      started := BeginConnect();
      if started {
        FinishConnect(outcome);
      }
    }

    /** The `accountsChanged` handler. With no accounts the button clears and the parent is
        told `null`; a different first account starts a connect, which ends as `outcome`. */
    method OnAccountsChanged(accounts: seq<string>, outcome: Connection) returns (connectStarted: bool)
      requires listening
      modifies this`address, this`error, this`isConnecting, this`reports
      ensures OnAccounts(accounts, old(address)) == Disconnect ==>
        !connectStarted && address == "" && reports == old(reports) + [None]
        && error == old(error) && isConnecting == old(isConnecting)
      ensures OnAccounts(accounts, old(address)) == Ignore ==> !connectStarted && unchanged(this)
      ensures OnAccounts(accounts, old(address)) == Reconnect ==> (connectStarted <==> !old(isConnecting))
      ensures OnAccounts(accounts, old(address)) == Reconnect && !connectStarted ==> unchanged(this)
      ensures OnAccounts(accounts, old(address)) == Reconnect && connectStarted ==> !isConnecting
      ensures OnAccounts(accounts, old(address)) == Reconnect && connectStarted && outcome.Connected? ==>
        address == outcome.signer.address && reports == old(reports) + [Some(outcome.signer)] && error == ""
      ensures OnAccounts(accounts, old(address)) == Reconnect && connectStarted && outcome.Refused? ==>
        address == old(address) && reports == old(reports) && error == ConnectFailed
      ensures old(InSync()) ==> InSync()
    {
      connectStarted := false;
      if |accounts| == 0 {
        address := "";
        reports := reports + [None];
      } else if accounts[0] != address {
        connectStarted := HandleConnect(outcome);
      }
    }

    /** `checkConnection`: the silent reconnect. `agentPresent` says whether a browser wallet is
        injected; `accounts` is the answer to `eth_accounts`, `None` when the request throws. */
    method CheckConnection(agentPresent: bool, accounts: Option<seq<string>>, outcome: Connection)
      returns (connectStarted: bool)
      modifies this`address, this`error, this`isConnecting, this`reports
      ensures connectStarted <==>
        agentPresent && !old(isConnecting) && accounts.Some? && accounts.value != [] && isMounted && old(address) == ""
      ensures !connectStarted ==> unchanged(this)
      ensures connectStarted ==> !isConnecting
      ensures connectStarted && outcome.Connected? ==>
        address == outcome.signer.address && reports == old(reports) + [Some(outcome.signer)] && error == ""
      ensures connectStarted && outcome.Refused? ==> address == "" && reports == old(reports) && error == ConnectFailed
      ensures old(InSync()) ==> InSync()
    {
      connectStarted := false;
      if agentPresent && !isConnecting {
        if accounts.Some? && |accounts.value| > 0 && isMounted && address == "" {
          connectStarted := HandleConnect(outcome);
        }
      }
    }

    /** The effect body: mark mounted and, with a browser wallet, register the handlers. */
    method Setup(agentPresent: bool)
      modifies this`isMounted, this`listening
      ensures isMounted && listening == (agentPresent || old(listening))
    {
      isMounted := true;
      if agentPresent {
        listening := true;
      }
    }

    /** The effect cleanup: mark unmounted and remove every wallet handler. */
    method Cleanup(agentPresent: bool)
      modifies this`isMounted, this`listening
      ensures !isMounted && listening == (old(listening) && !agentPresent)
    {
      isMounted := false;
      if agentPresent {
        listening := false;
      }
    }
  }
}
