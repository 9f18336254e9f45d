/** The auction card: ownership check, the bid submission with its local pre-check,
    the mapping of contract revert reasons to user messages, and what the card displays. */
module Bidding {
  import opened Common
  import opened Text

  const ZeroAddress := "0x0000000000000000000000000000000000000000"

  /** Revert reasons of the auction contract that the card recognises. */
  const OwnerRevert := "Owner cannot bid"
  const TooLowRevert := "Bid not high enough"

  /** User messages. */
  const OwnAuctionMessage := "Você não pode dar lance no seu próprio leilão"
  const TooLowMessage := "O lance deve ser maior que o atual"
  const GenericBidError := "Erro ao dar lance. Tente novamente."

  /** The message the local pre-check throws for a bid not above the current highest bid. */
  const LocalTooLow := "O lance deve ser maior que o atual"

  /** The message set by the catch block for any thrown message: the owner reason wins over
      the too-low reason, and anything else is generic. */
  function ErrorMessage(thrown: string): (r: string)
    ensures Contains(thrown, OwnerRevert) ==> r == OwnAuctionMessage
    ensures !Contains(thrown, OwnerRevert) && Contains(thrown, TooLowRevert) ==> r == TooLowMessage
    ensures !Contains(thrown, OwnerRevert) && !Contains(thrown, TooLowRevert) ==> r == GenericBidError
  {
    if Contains(thrown, OwnerRevert) then OwnAuctionMessage
    else if Contains(thrown, TooLowRevert) then TooLowMessage
    else GenericBidError
  }

  /** What happens after the owner check: whether `placeBid` is reached, and the message
      thrown on the way, if any. */
  datatype BidAttempt = BidAttempt(placed: bool, thrown: Option<string>)

  /** The try block of `handleBid` for a bid amount that `parseEther` turned into `parsed`,
      against `highest` wei, where the transaction (if sent) ends as `tx`. */
  function Attempt(highest: nat, parsed: Parsed, tx: TxResult): (r: BidAttempt)
    ensures r.placed <==> parsed.Wei? && parsed.amount > highest
    ensures r.thrown.None? <==> r.placed && tx.Mined?
    ensures parsed.Unparsable? ==> r.thrown == Some(parsed.message)
    ensures parsed.Wei? && parsed.amount <= highest ==> r.thrown == Some(LocalTooLow)
    ensures r.placed && tx.Failed? ==> r.thrown == Some(tx.message)
  {
    match parsed
    case Unparsable(m) => BidAttempt(false, Some(m))
    case Wei(v) =>
      if v <= highest then BidAttempt(false, Some(LocalTooLow))
      else match tx
        case Mined => BidAttempt(true, None)
        case Failed(m) => BidAttempt(true, Some(m))
  }

  /** The part of the try block that runs before the first `await`: the value `placeBid` is
      sent with, or the message thrown by `parseEther` or by the local check. */
  datatype LocalOutcome = Send(value: int) | Throw(message: string)

  function LocalCheck(highest: nat, parsed: Parsed): (r: LocalOutcome)
    ensures r.Send? <==> parsed.Wei? && parsed.amount > highest
    ensures r.Send? ==> r.value == parsed.amount
    ensures parsed.Unparsable? ==> r == Throw(parsed.message)
    ensures parsed.Wei? && parsed.amount <= highest ==> r == Throw(LocalTooLow)
  {
    match parsed
    case Unparsable(m) => Throw(m)
    case Wei(v) => if v <= highest then Throw(LocalTooLow) else Send(v)
  }

  /** The local check decides exactly what the whole try block decides before the transaction:
      whether `placeBid` is reached, and the message thrown when it is not. */
  lemma LocalCheckAgreesWithAttempt(highest: nat, parsed: Parsed, tx: TxResult)
    ensures LocalCheck(highest, parsed).Send? <==> Attempt(highest, parsed, tx).placed
    ensures LocalCheck(highest, parsed).Throw? ==>
      Attempt(highest, parsed, tx).thrown == Some(LocalCheck(highest, parsed).message)
  {
  }

  /** A bid that is not above the current highest bid never reaches the contract, and since
      the local message names neither revert reason the user sees the generic error. */
  lemma LocalRejectionShowsGeneric(highest: nat, amount: int, tx: TxResult)
    requires amount <= highest
    ensures !Attempt(highest, Wei(amount), tx).placed
    ensures ErrorMessage(Attempt(highest, Wei(amount), tx).thrown.value) == GenericBidError
  {
    assert OwnerRevert[1] == 'w';
    assert forall i :: 0 <= i < |LocalTooLow| ==> LocalTooLow[i] != 'w';
    AbsentCharNotContained(LocalTooLow, OwnerRevert, 1);
    assert TooLowRevert[0] == 'B';
    assert forall i :: 0 <= i < |LocalTooLow| ==> LocalTooLow[i] != 'B';
    AbsentCharNotContained(LocalTooLow, TooLowRevert, 0);
  }

  /** A revert carrying both reasons is reported as the owner case. */
  lemma OwnerReasonTakesPrecedence(thrown: string)
    requires Contains(thrown, OwnerRevert) && Contains(thrown, TooLowRevert)
    ensures ErrorMessage(thrown) == OwnAuctionMessage
  {
  }

  /** The highest-bidder row: shown, with the shortened address, unless the bidder is the
      zero address the contract uses for "no bid yet". */
  function HighestBidderRow(bidder: string): (r: Option<string>)
    ensures r.None? <==> bidder == ZeroAddress
    ensures r.Some? ==> r.value == Shorten(bidder)
  {
    if bidder == ZeroAddress then None else Some(Shorten(bidder))
  }

  /** The lower part of the card. */
  datatype BidPanel = NoPanel | OwnerNotice | BidForm | BidButton

  function Panel(auctionEnded: bool, timeLeft: string, isOwner: bool, showBidForm: bool): (r: BidPanel)
    ensures r == NoPanel <==> auctionEnded || timeLeft == "Ended"
    ensures r == OwnerNotice <==> !auctionEnded && timeLeft != "Ended" && isOwner
    ensures r == BidForm <==> !auctionEnded && timeLeft != "Ended" && !isOwner && showBidForm
    ensures r == BidButton <==> !auctionEnded && timeLeft != "Ended" && !isOwner && !showBidForm
  {
    if auctionEnded || timeLeft == "Ended" then NoPanel
    else if isOwner then OwnerNotice
    else if showBidForm then BidForm
    else BidButton
  }

  /** The state of one auction card. */
  class AuctionCard {
    var bidAmount: string
    var loading: bool
    var error: string
    var showBidForm: bool
    var isOwner: bool

    constructor ()
      ensures bidAmount == "" && !loading && error == "" && !showBidForm && !isOwner
    {
      bidAmount, loading, error, showBidForm, isOwner := "", false, "", false, false;
    }

    /** `checkOwner`: with a signer, the card is the caller's when the signer's address and
        the auction owner agree up to case; without one the flag is left as it was. */
    method CheckOwner(signerAddress: Option<string>, owner: string)
      modifies this`isOwner
      ensures signerAddress.Some? ==> (isOwner <==> Lower(signerAddress.value) == Lower(owner))
      ensures signerAddress.None? ==> isOwner == old(isOwner)
    {
      if signerAddress.Some? {
        isOwner := SameAddress(signerAddress.value, owner);
      }
    }

    /** `handleBid` up to its first `await`, which all runs at the click. The owner is stopped
        with a message and nothing else changes. Anyone else has the amount parsed and checked
        against `highest` now: a thrown message reaches the catch and finally blocks at once,
        while a good amount is sent to `placeBid` (returned as `sent`) with loading on. */
    method BeginBid(highest: nat, parse: string -> Parsed) returns (sent: Option<int>)
      modifies this`loading, this`error
      ensures isOwner ==> sent.None? && error == OwnAuctionMessage && loading == old(loading)
      ensures !isOwner && LocalCheck(highest, parse(bidAmount)).Send? ==>
        sent == Some(LocalCheck(highest, parse(bidAmount)).value) && loading && error == ""
      ensures !isOwner && LocalCheck(highest, parse(bidAmount)).Throw? ==>
        sent.None? && !loading && error == ErrorMessage(LocalCheck(highest, parse(bidAmount)).message)
    {
      sent := None;
      if isOwner {
        error := OwnAuctionMessage;
        return;
      }
      loading := true;
      error := "";
      var parsed := parse(bidAmount);
      if parsed.Unparsable? {
        error := ErrorMessage(parsed.message);
        loading := false;
      } else if parsed.amount <= highest {
        error := ErrorMessage(LocalTooLow);
        loading := false;
      } else {
        sent := Some(parsed.amount);
      }
    }

    /** The rest of `handleBid`, once the sent transaction and its `wait()` have ended as `tx`.
        It reads nothing the user may have edited meanwhile. Returns whether `onBidPlaced` ran. */
    method FinishBid(tx: TxResult, hasOnBidPlaced: bool) returns (notified: bool)
      requires loading
      modifies this`loading, this`error, this`bidAmount, this`showBidForm
      ensures !loading
      ensures tx.Mined? ==> notified == hasOnBidPlaced && bidAmount == "" && !showBidForm && error == old(error)
      ensures tx.Failed? ==> !notified && error == ErrorMessage(tx.message)
                             && bidAmount == old(bidAmount) && showBidForm == old(showBidForm)
    {
      notified := false;
      if tx.Mined? {
        if hasOnBidPlaced {
          notified := true;
        }
        bidAmount := "";
        showBidForm := false;
      } else {
        error := ErrorMessage(tx.message);
      }
      loading := false;
    }

    /** The bid input's `onChange`. */
    method SetBidAmount(value: string)
      modifies this`bidAmount
      ensures bidAmount == value
    {
      bidAmount := value;
    }

    /** The "Dar Lance" button (`true`) and the cancel button (`false`). */
    method SetShowBidForm(show: bool)
      modifies this`showBidForm
      ensures showBidForm == show
    {
      showBidForm := show;
    }

    /** The whole of `handleBid` run without interruption. */
    method HandleBid(highest: nat, parse: string -> Parsed, tx: TxResult, hasOnBidPlaced: bool)
      returns (placed: bool, notified: bool)
      modifies this`loading, this`error, this`bidAmount, this`showBidForm
      ensures isOwner == old(isOwner)
      ensures old(isOwner) ==> !placed && !notified && error == OwnAuctionMessage && loading == old(loading)
                               && bidAmount == old(bidAmount) && showBidForm == old(showBidForm)
      ensures !old(isOwner) ==>
        var a := Attempt(highest, parse(old(bidAmount)), tx);
        && placed == a.placed && !loading
        && (a.thrown.None? ==> notified == hasOnBidPlaced && bidAmount == "" && !showBidForm && error == "")
        && (a.thrown.Some? ==> !notified && error == ErrorMessage(a.thrown.value)
                               && bidAmount == old(bidAmount) && showBidForm == old(showBidForm))
    {
      var sent := BeginBid(highest, parse);
      if sent.None? {
        placed, notified := false, false;
        return;
      }
      placed := true;
      notified := FinishBid(tx, hasOnBidPlaced);
    }
  }
}
