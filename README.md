# ChainAuction client — a Dafny model

ChainAuction's React client lets a user work with an auction contract. The user connects a
browser wallet, then sees the newest auctions in a carousel and browses every auction with a
search, a status filter and a sort. On each auction card the user can bid, and a separate page
creates new auctions. This project models the client's logic in Dafny and proves properties of
that model:

- **Wallet session** (`Wallet`). Connecting, with its re-entrancy guard. The silent reconnect
  on mount. The `accountsChanged` handler, which disconnects or reconnects. Registering and
  removing the wallet event handlers. An invariant: the address the button shows is the address
  of the signer the parent was last given.
- **Ledger snapshot** (`Ledger`, `Listing`, `Featured`). The list reads ids `0 … count-1` and
  the carousel reads the newest three. Both pin every read to one block. A read that throws
  drops only its own auction. The carousel's fetch writes nothing once its effect has been
  cleaned up.
- **Views** (`Views`). Case-insensitive search, then the status filter, then one of four sort
  orders. The rendered list is a permutation of exactly the auctions that pass the search and
  the filter, ordered as the chosen key says.
- **Bidding** (`Bidding`). The owner check. The local "bid must exceed the current highest bid"
  check. The mapping of contract revert reasons to user messages. Which panel the card shows.
- **Time** (`Clock`). The card's second-by-second countdown and its timer. The carousel's
  minute-resolution "time left". When the two agree.
- **Creation and shell** (`Creation`, `AppShell`). Form edits, the image picker, the
  create-auction submission, the connected signer, and what the page shows for a view.

Four handlers are split at their first `await` into a `Begin…` and a `Finish…` method:
`handleConnect`, `handleBid`, `handleSubmit`, and the carousel's fetch effect (`Start`/`Finish`).
The first half runs everything before that `await` and issues the awaited call. The second
half runs once that call and any later awaits have settled. So the state in between is
observable: for example, `loading` or `isConnecting` is true while the contract call is
pending. A `Handle…` method composes the two halves. The list's fetch and the silent
reconnect are each one step (see "Left out"). The outside world enters as parameters:

- `Date.now()` is an integer count of milliseconds.
- `parseEther` is a function `string -> Parsed`.
- A transaction together with its `wait()` is a `TxResult`.
- `getAuction(id, { blockTag })` is a `Reader`, `(id, block) -> Option<LedgerAuction>`. `None`
  means the call threw.
- `getBlockNumber()` and `auctionCounter()` are `Option<nat>` values.
- `connectWallet()` together with `getAddress()` is a `Connection`.

Points of the code that the model keeps as written:

- `handleBid` has no check that the auction has ended. The card hides the bid form instead
  (`Panel`).
- The local "too low" rejection is thrown and then caught by the same block that classifies
  contract reverts. Its message names no revert reason, so the user sees the generic error
  (`LocalRejectionShowsGeneric`).
- The missing-field error that `handleSubmit` throws (`CreateAuction.jsx`, line 51) never
  reaches the user. The catch block replaces it with the single creation error (line 83).

## Model

| member | source | states |
|---|---|---|
| Common.Filter | frontend/src/components/AuctionList.jsx:82-85 | The result is never longer than the input. |
| Common.FilterMembers | frontend/src/components/AuctionList.jsx:82-85 | The kept elements are exactly the elements of the input that satisfy the predicate. |
| Common.FilterAppend | frontend/src/components/AuctionList.jsx:91-93 | Filtering a concatenation gives the concatenation of the filtered parts, so kept elements keep their relative order. |
| Common.FilterComplement | frontend/src/components/AuctionList.jsx:90-93 | Filtering by a predicate and by its negation together give back every element exactly as often as the input holds it. |
| Common.FilterAll | frontend/src/components/AuctionList.jsx:80-81 | A predicate true everywhere keeps the whole list unchanged. |
| Text.LowerChar | frontend/src/components/AuctionCard.jsx:16 | The result is never an upper-case letter. A capital maps to its lower-case letter, and any other character is unchanged. |
| Text.Lower | frontend/src/components/AuctionList.jsx:83-84 | The result has the same length and no capitals. Each capital becomes its own lower-case letter, and every other character is unchanged. |
| Text.LowerIdempotent | frontend/src/components/AuctionList.jsx:83-84 | Lowering twice is the same as lowering once. |
| Text.SameAddressCharwise | frontend/src/components/AuctionCard.jsx:16 | Two addresses agree up to case exactly when they have equal length and agree character by character up to case. |
| Text.SameAddress | frontend/src/components/AuctionCard.jsx:16 | Addresses that agree up to case have the same length, every address agrees with itself, and for addresses already in lower case the comparison is plain equality. |
| Text.SameAddressIsEquivalence | frontend/src/components/AuctionCard.jsx:16 | The owner comparison is reflexive, symmetric and transitive. |
| Text.ContainsEmpty | frontend/src/components/AuctionList.jsx:81-86 | Every string contains the empty string. |
| Text.Contains | frontend/src/components/AuctionList.jsx:83-84 | `includes` holds only for a pattern no longer than the string, and always holds for a prefix. |
| Text.AbsentCharNotContained | frontend/src/components/AuctionCard.jsx:75-77 | A string does not contain a pattern with a character the string never uses. |
| Text.SliceHead | frontend/src/components/AuctionCard.jsx:129 | `slice(0, n)` gives the first `min(n, len)` characters. |
| Text.SliceTail | frontend/src/components/AuctionCard.jsx:129 | For a positive `n`, `slice(-n)` gives the last `min(n, len)` characters. |
| Text.Shorten | frontend/src/components/AuctionCard.jsx:185 | An address of at least 10 characters becomes 13: its first 6 characters, `...`, then its last 4. The lengths of shorter inputs are stated too. |
| Text.DecimalString | frontend/src/components/AuctionCard.jsx:37 | The rendering of a number is non-empty, all digits, and has no leading zero. |
| Text.DecimalRoundTrip | frontend/src/components/AuctionCard.jsx:37 | Reading the rendered digits back gives the number. |
| Text.DecimalInjective | frontend/src/components/AuctionCard.jsx:37 | Different numbers render differently. |
| Clock.TimeLeft | frontend/src/components/AuctionCard.jsx:25-37 | Ended exactly when `now >= endTime`. Otherwise hours < 24, minutes < 60, seconds < 60, and days·86400 + hours·3600 + minutes·60 + seconds = `endTime - now`. |
| Clock.TimeLeftMonotonic | frontend/src/components/AuctionCard.jsx:28-37 | The remaining time never increases as `now` advances, and once the countdown has ended it stays ended. |
| Clock.TimeLeftInjectiveBeforeEnd | frontend/src/components/AuctionCard.jsx:32-36 | Two different seconds before the end give different countdowns. |
| Clock.Render | frontend/src/components/AuctionCard.jsx:29-37 | The text is `Ended` exactly for the ended countdown. |
| Clock.CountdownTimer.constructor | frontend/src/components/AuctionCard.jsx:22-24 | Starts with the text empty, and ticking only when the auction has not ended. |
| Clock.CountdownTimer.Tick | frontend/src/components/AuctionCard.jsx:24-39 | Sets the text for the whole second `floor(nowMs/1000)`. The interval keeps running exactly while that second is before the end, and the text is `Ended` exactly when the interval stops. |
| Clock.CountdownTimer.Unmount | frontend/src/components/AuctionCard.jsx:41 | The interval stops and the last text stays. |
| Clock.FormatTimeLeft | frontend/src/components/FeaturedAuctions.jsx:165-173 | Finished exactly when `endTimeMs - nowMs <= 0`. Otherwise hours < 24 and minutes < 60, and the time shown is within one minute below the real remaining time. |
| Clock.RenderShort | frontend/src/components/FeaturedAuctions.jsx:167-172 | The text is `Finalizado` exactly for the finished value. |
| Clock.EndTimeMs | frontend/src/components/FeaturedAuctions.jsx:50 | The millisecond end time is a whole number of seconds that divides back to the ledger's seconds. |
| Clock.EndedAgreesWithFinalized | frontend/src/components/FeaturedAuctions.jsx:166-167 | A slide shows "finished" at exactly the times at which the card's countdown shows `Ended`. |
| Clock.ShortAgreesOnWholeSeconds | frontend/src/components/FeaturedAuctions.jsx:169-171 | On a whole second, the slide shows the same days, hours and minutes as the card. |
| Bidding.ErrorMessage | frontend/src/components/AuctionCard.jsx:73-80 | A message with the owner reason gives the own-auction message. Otherwise a message with the too-low reason gives the too-low message. Anything else gives the generic error. |
| Bidding.Attempt | frontend/src/components/AuctionCard.jsx:55-72 | `placeBid` is reached exactly when the amount parses and exceeds the current highest bid. Nothing is thrown exactly when the bid is placed and mined. The parse, local-check and transaction messages are each carried as thrown. |
| Bidding.LocalCheck | frontend/src/components/AuctionCard.jsx:56-62 | `placeBid` is sent exactly when the amount parses and exceeds the current highest bid, and it is sent with that amount. Otherwise the parse message or the local too-low message is thrown. |
| Bidding.LocalCheckAgreesWithAttempt | frontend/src/components/AuctionCard.jsx:55-72 | The check made at the click decides `placeBid` exactly as the whole try block does, and throws the same message when it stops the bid. |
| Bidding.LocalRejectionShowsGeneric | frontend/src/components/AuctionCard.jsx:60-79 | A bid not above the current highest bid never reaches the contract, and the user sees the generic error message. |
| Bidding.OwnerReasonTakesPrecedence | frontend/src/components/AuctionCard.jsx:75-79 | A revert message naming both reasons is reported as the owner case. |
| Bidding.HighestBidderRow | frontend/src/components/AuctionCard.jsx:125-132 | The row is hidden exactly for the zero address; otherwise it shows the shortened bidder. |
| Bidding.Panel | frontend/src/components/AuctionCard.jsx:134-180 | No bid panel exactly when the auction has ended or the countdown reads `Ended`. Otherwise the owner notice exactly for the owner, the bid form exactly for anyone else with the form open, and the bid button exactly for anyone else with it closed. |
| Bidding.AuctionCard.constructor | frontend/src/components/AuctionCard.jsx:5-10 | The initial card state. |
| Bidding.AuctionCard.CheckOwner | frontend/src/components/AuctionCard.jsx:13-18 | With a signer, the owner flag holds exactly when the addresses agree up to case. Without a signer the flag is left as it was. |
| Bidding.AuctionCard.BeginBid | frontend/src/components/AuctionCard.jsx:45-64 | The owner is stopped with the own-auction message and the loading flag unchanged. Anyone else has the amount parsed and checked at the click. A good amount is sent to `placeBid` with loading on and the error cleared. A thrown parse or too-low message ends the handler at once with loading off and the mapped message shown. |
| Bidding.AuctionCard.FinishBid | frontend/src/components/AuctionCard.jsx:64-84 | Depends only on how the sent transaction ended. Success calls `onBidPlaced` if given, clears the amount and closes the form. Failure shows the mapped revert message and keeps the amount and the form. Loading is off afterwards. |
| Bidding.AuctionCard.SetBidAmount | frontend/src/components/AuctionCard.jsx:147 | The amount input's value is stored. |
| Bidding.AuctionCard.SetShowBidForm | frontend/src/components/AuctionCard.jsx:173 | The bid form opens or closes. |
| Bidding.AuctionCard.HandleBid | frontend/src/components/AuctionCard.jsx:45-85 | The whole handler: the owner flag never changes, and an owner changes nothing but the error. Otherwise the outcome is `Attempt` followed by the message mapping. |
| Ledger.Requests | frontend/src/components/FeaturedAuctions.jsx:43 | The k-th read issued asks for the k-th id at the pinned block. |
| Ledger.ToClient | frontend/src/components/AuctionList.jsx:36-47 | The client record takes its id from the loop index and every other field (title, description, image, starting price, bid, bidder, end time, ended, owner) from the tuple. |
| Ledger.Fetched | frontend/src/components/AuctionList.jsx:33-51 | Collects at most one auction per requested id. Each kept auction has a requested id, a successful read at the block, and the fields that read returned. |
| Ledger.FetchedComplete | frontend/src/components/AuctionList.jsx:33-51 | An id appears in the result exactly when it was requested and its read succeeded. |
| Ledger.FetchedOrdered | frontend/src/components/AuctionList.jsx:33-51 | Ids requested in strictly increasing (or decreasing) order come out in that order. |
| Ledger.WithoutId | frontend/src/components/AuctionList.jsx:48-50 | The result holds exactly the auctions with a different id. |
| Ledger.FailureDropsOnlyThatItem | frontend/src/components/AuctionList.jsx:34-50 | A read that throws for one id removes exactly that auction. Every other auction stays, unchanged and in order. |
| Ledger.Range | frontend/src/components/AuctionList.jsx:33 | The list requests the ids `0 … count-1`, in order. |
| Ledger.Snapshot | frontend/src/components/AuctionList.jsx:32-53 | The snapshot holds at most `count` auctions, and every id in it is below `count`. |
| Ledger.SnapshotSpec | frontend/src/components/AuctionList.jsx:19-53 | The snapshot holds exactly the readable auctions below the counter, as read at one block, in strictly increasing id order. |
| Ledger.EmptyCountEmptySnapshot | frontend/src/components/AuctionList.jsx:26-29 | A zero counter gives an empty snapshot. |
| Ledger.ThreeWithMiddleFailing | frontend/src/components/AuctionList.jsx:33-51 | With three auctions whose middle read throws, the snapshot is the auctions with ids 0 and 2, in that order. |
| Views.Search | frontend/src/components/AuctionList.jsx:80-86 | An empty term keeps the list as it is. Otherwise an auction is kept exactly when its title or description contains the term, ignoring case. |
| Views.EmptyTermMatchesAll | frontend/src/components/AuctionList.jsx:81 | Skipping the search for an empty term changes nothing, since every auction matches the empty term. |
| Views.Matches | frontend/src/components/AuctionList.jsx:82-85 | Every auction matches the empty term, and a matching term is no longer than the title or the description. |
| Views.IsActive | frontend/src/components/AuctionList.jsx:91 | Active exactly when not ended and the end time in seconds exceeds `Date.now() / 1000` as an exact quotient. |
| Views.IsOver | frontend/src/components/AuctionList.jsx:93 | Over exactly when ended or the end time in seconds is at most `Date.now() / 1000`, which is exactly when the auction is not active. |
| Views.StatusFilter | frontend/src/components/AuctionList.jsx:89-96 | `active` keeps the auctions that are not ended and end after now. `ended` keeps the others. Any other value keeps everything. |
| Views.ActiveEndedPartition | frontend/src/components/AuctionList.jsx:90-93 | The two views are disjoint and together hold the list exactly. |
| Views.FilterAuctions | frontend/src/components/AuctionList.jsx:78-97 | An auction is kept exactly when it is in the list, passes the search (or the term is empty), and satisfies the status the filter names. |
| Views.ParseSort | frontend/src/components/AuctionList.jsx:100-110 | Each of the three named keys selects its order, and any other key selects newest-first. |
| Views.InOrder | frontend/src/components/AuctionList.jsx:102-109 | A comparator result at most zero means exactly that the first auction's sort key (minus id, end time, minus bid, or bid) is at most the second's, so every comparator is a total preorder. |
| Views.Insert | frontend/src/components/AuctionList.jsx:102-109 | Inserting into a sorted list gives a sorted list with one more copy of the element. |
| Views.SortBy | frontend/src/components/AuctionList.jsx:102-109 | The result is a permutation of the input and sorted by the comparator. |
| Views.SortAuctions | frontend/src/components/AuctionList.jsx:99-111 | The result is a permutation of the input, ordered by end time ascending, bid descending, bid ascending, or id descending as the key says. |
| Views.DisplayedExactlyTheFiltered | frontend/src/components/AuctionList.jsx:113 | The rendered list is a permutation of the filtered list. An auction is rendered exactly when it is in the snapshot and passes the search and the status filter. |
| Views.Displayed | frontend/src/components/AuctionList.jsx:113 | The rendered list is a permutation of the filtered list, sorted under the order the key selects. |
| Views.NewestStrictlyDescending | frontend/src/components/AuctionList.jsx:107-113 | Under newest-first, a snapshot's rendered ids strictly decrease. |
| Listing.AuctionList.constructor | frontend/src/components/AuctionList.jsx:6-10 | Empty, loading, filter `all`, sort `newest`, no search term. |
| Listing.AuctionList.FetchAuctions | frontend/src/components/AuctionList.jsx:12-60 | Loading is off afterwards. A failed block or counter read gives an empty list and no item reads. Otherwise the list is the snapshot at that block, and the k-th read asks for id k at that block. |
| Listing.AuctionList.SetSearchTerm | frontend/src/components/AuctionList.jsx:137 | The search term is stored. |
| Listing.AuctionList.SetFilter | frontend/src/components/AuctionList.jsx:143 | The status filter is stored. |
| Listing.AuctionList.SetSort | frontend/src/components/AuctionList.jsx:153 | The sort key is stored. |
| Listing.AuctionList.Rendered | frontend/src/components/AuctionList.jsx:113 | What the page renders from the current state is a permutation of the held auctions that pass the current search and filter, sorted by the current key, and holds nothing else. |
| Listing.DefaultViewAfterFetch | frontend/src/components/AuctionList.jsx:8-10 | With the initial filter, sort and search, the page shows the whole snapshot, newest first. |
| Featured.ToFeatured | frontend/src/components/FeaturedAuctions.jsx:45-51 | A slide keeps the id, title, image and bid, and holds the end time in milliseconds. |
| Featured.NewestIds | frontend/src/components/FeaturedAuctions.jsx:38-42 | There are `min(count, 3)` ids, and the k-th is `count-1-k`. |
| Featured.Slides | frontend/src/components/FeaturedAuctions.jsx:45-51 | There is one slide per fetched auction, in the same order. |
| Featured.FeaturedList | frontend/src/components/FeaturedAuctions.jsx:37-55 | At most `min(count, 3)` slides, each for an id below `count` whose read at the block succeeded. |
| Featured.FeaturedListSpec | frontend/src/components/FeaturedAuctions.jsx:37-55 | At most `min(count, 3)` slides, none for a zero counter. Ids strictly decrease and lie among the newest three. Every slide was read at the block and carries the fields that read returned. |
| Featured.FeaturedFailureDropsOnlyThatSlide | frontend/src/components/FeaturedAuctions.jsx:41-54 | A read that throws removes only that slide. |
| Featured.Next | frontend/src/components/FeaturedAuctions.jsx:155 | The result is a valid index that wraps from the last to the first. |
| Featured.Prev | frontend/src/components/FeaturedAuctions.jsx:160-162 | The result is a valid index that wraps from the first to the last. |
| Featured.PrevUndoesNext | frontend/src/components/FeaturedAuctions.jsx:153-163 | Going back undoes going forward, and the other way round. |
| Featured.FeaturedAuctions.constructor | frontend/src/components/FeaturedAuctions.jsx:5-8 | No slides, index 0, not loading, no error. |
| Featured.FeaturedAuctions.NextSlide | frontend/src/components/FeaturedAuctions.jsx:153-156 | No change with at most one slide; otherwise the index moves forward cyclically. |
| Featured.FeaturedAuctions.PrevSlide | frontend/src/components/FeaturedAuctions.jsx:158-163 | No change with at most one slide; otherwise the index moves back cyclically. |
| Featured.FeaturedAuctions.ClearError | frontend/src/components/FeaturedAuctions.jsx:193 | The retry button clears the error. |
| Featured.ReadNewest | frontend/src/components/FeaturedAuctions.jsx:37-55 | The loop yields exactly the featured list, and issues `min(count, 3)` reads: read k asks for id `count-1-k` at the block. |
| Featured.FetchEffect.constructor | frontend/src/components/FeaturedAuctions.jsx:11 | The run starts mounted. |
| Featured.FetchEffect.Start | frontend/src/components/FeaturedAuctions.jsx:16-18 | Loading on, error cleared. |
| Featured.FetchEffect.Finish | frontend/src/components/FeaturedAuctions.jsx:24-69 | Once cleaned up, the component is untouched. A failed block or counter read sets the load error. Otherwise the slides are the featured list. Loading is off afterwards. |
| Featured.FetchEffect.Cleanup | frontend/src/components/FeaturedAuctions.jsx:76-78 | The run is no longer mounted. |
| Featured.SlideFinalizedIffCardEnded | frontend/src/components/FeaturedAuctions.jsx:165-167 | A slide reads `Finalizado` exactly when the card for the same auction reads `Ended`. |
| Featured.SlideTimeLeft | frontend/src/components/FeaturedAuctions.jsx:266 | The slide reads `Finalizado` exactly when its end time in milliseconds is not after now. |
| Wallet.Badge | frontend/src/components/WalletConnection.jsx:73-98 | The connect button shows exactly when no address is held. Otherwise the badge shows the first 6 characters, `...`, and the last 4. |
| Wallet.OnAccounts | frontend/src/components/WalletConnection.jsx:48-55 | Disconnect exactly for an empty account list. Reconnect exactly when the first account differs from the address shown. Otherwise ignore. |
| Wallet.SecondEventIgnored | frontend/src/components/WalletConnection.jsx:52 | An event whose first account equals the address shown asks for nothing. |
| Wallet.WalletConnection.constructor | frontend/src/components/WalletConnection.jsx:5-8 | Disconnected, with nothing reported, and in sync. |
| Wallet.WalletConnection.BeginConnect | frontend/src/components/WalletConnection.jsx:10-13 | A connect while one is pending changes nothing. Otherwise connecting starts with the error cleared. |
| Wallet.WalletConnection.FinishConnect | frontend/src/components/WalletConnection.jsx:15-25 | Success shows the signer's address and reports the signer to the parent. Failure sets the error and keeps the address. Connecting ends either way. The address stays in sync with the last report. |
| Wallet.WalletConnection.HandleConnect | frontend/src/components/WalletConnection.jsx:10-26 | The whole handler, with the guard, the two outcomes, and the sync invariant kept. |
| Wallet.WalletConnection.OnAccountsChanged | frontend/src/components/WalletConnection.jsx:48-55 | No accounts clears the address and reports `null`. The same first account changes nothing. A different first account runs `handleConnect`: nothing changes while a connect is pending; otherwise connecting ends, and success shows and reports the signer with no error, while refusal keeps the address and reports and sets the fixed error. The sync invariant is kept. |
| Wallet.WalletConnection.CheckConnection | frontend/src/components/WalletConnection.jsx:31-44 | A connect starts exactly when a wallet is present, none is pending, accounts were read and are non-empty, the component is mounted, and no address is held; it ends with connecting off, and success or refusal leave the same state as `handleConnect`. Otherwise nothing changes. |
| Wallet.WalletConnection.Setup | frontend/src/components/WalletConnection.jsx:47-60 | Mounted, with the handlers registered when a wallet is present. |
| Wallet.WalletConnection.Cleanup | frontend/src/components/WalletConnection.jsx:64-70 | Unmounted, with every handler removed when a wallet is present. |
| Creation.WithField | frontend/src/components/CreateAuction.jsx:18-24 | The named field takes the value, and every other field is unchanged. |
| Creation.WithFieldLaws | frontend/src/components/CreateAuction.jsx:18-24 | The second of two writes wins, and writing back a field's own value changes nothing. |
| Creation.RequiredFilled | frontend/src/components/CreateAuction.jsx:50 | Filled exactly when every field other than the image and the duration is non-empty; the initial form is never filled. |
| Creation.CallFor | frontend/src/components/CreateAuction.jsx:49-74 | `createAuction` is called exactly when title, description and price are filled and the price parses. The call carries the form's title, description and duration, the parsed price, and the fixed short image URL. |
| Creation.Submit | frontend/src/components/CreateAuction.jsx:49-80 | `createAuction` is called exactly when title, description and price are filled and the price parses, always with the fixed short image URL. Creation succeeds exactly when the call is made and mined. |
| Creation.ImageUrlIgnored | frontend/src/components/CreateAuction.jsx:57 | The form's image field has no effect on the submission. |
| Creation.CreateAuction.constructor | frontend/src/components/CreateAuction.jsx:6-15 | Empty fields, a duration of 3600, not loading, no error, no preview. |
| Creation.CreateAuction.HandleChange | frontend/src/components/CreateAuction.jsx:18-24 | Only the edited field changes. |
| Creation.CreateAuction.HandleImageChange | frontend/src/components/CreateAuction.jsx:30-42 | With no file nothing changes. Otherwise the preview is set and the image field becomes the fixed URL. |
| Creation.CreateAuction.BeginSubmit | frontend/src/components/CreateAuction.jsx:44-74 | The call issued is the one the form at the click asks for. When a call is issued, loading is on and the error cleared. Otherwise the handler ends at once with loading off and the generic creation error. |
| Creation.CreateAuction.FinishSubmit | frontend/src/components/CreateAuction.jsx:76-86 | Depends only on how the transaction ended. The callback runs exactly when it is given and the transaction was mined, and a failure shows the generic creation error. Loading is off afterwards, and the form is kept. |
| Creation.CreateAuction.HandleSubmit | frontend/src/components/CreateAuction.jsx:44-87 | The whole handler: the error is empty exactly when the auction was created, and otherwise generic. |
| AppShell.MainContent | frontend/src/App.jsx:58-75 | Nothing before initialisation. Otherwise the create page, the explore page, or the home page for any other view. |
| AppShell.Layout | frontend/src/App.jsx:89-137 | The nav and the create button show exactly with a signer, and the hero exactly without one. Main content appears only with a signer. |
| AppShell.CreateNeedsSigner | frontend/src/App.jsx:107-135 | No page, and in particular not the create page, is reachable without a signer. |
| AppShell.App.constructor | frontend/src/App.jsx:11-13 | No signer, home view, not initialised. |
| AppShell.App.HandleConnect | frontend/src/App.jsx:15-21 | Afterwards the app holds exactly the reported signer. Initialisation happens on the first change and is never undone. |
| AppShell.App.HandleAuctionCreated | frontend/src/App.jsx:23-25 | Back to the home view. |
| AppShell.App.SetView | frontend/src/App.jsx:85 | The chosen view is stored. |
| AppShell.App.Shown | frontend/src/App.jsx:77-138 | With a signer the page has content and no hero. Without one it has the hero, no nav, no create button and no content. |
| AppShell.ConnectedShowsContent | frontend/src/App.jsx:58-75 | Once initialised with a signer, the main area is never empty, and the home view shows the home page. |

## Left out

- Markup, styling, image `onError` patching, hover state, and the components outside the core
  (footer, newsletter, trending collections, theme) are not modelled.
- `frontend/src/utils/contractConfig.js` is not part of this model. `connectWallet`,
  `getContract`, `parseEther` and the contract calls enter as parameters (`Connection`, the
  `parse` function, `TxResult`, `Reader`). `formatEther` is not modelled, because it only
  formats amounts for display.
- The contract's own acceptance rules (ended auctions, balances) are not modelled. Only the
  revert messages the client recognises are.
- The `chainChanged` handler reloads the page. The reload is outside the model; only the
  registration and removal of the handlers is kept (`listening`).
- Listing.AuctionList.FetchAuctions: `fetchAuctions` awaits the block number, the counter and
  every item read. The model runs it as one step, so the loading state the list shows while
  the fetch is pending is not observable between calls.
- Wallet.WalletConnection.CheckConnection: the `eth_accounts` request is awaited before the
  mounted and address guard. The model runs the request and the guard as one step.
- Asynchronous interleaving is not modelled beyond the split at the first `await`. Nothing
  runs between the two halves except what a caller chooses to call, and any later awaits
  inside a `Finish…` half complete in one step. React's stale
  closures are not modelled either: handlers read the current field values, not the values of
  the render that created them.
- Text.Lower: folds only ASCII capitals, whereas JavaScript's `toLowerCase` also folds
  non-ASCII letters.
- Views.SortAuctions: does not state that the sort is stable. The order of auctions with equal
  keys is left open.
- Views.StatusFilter: compares the ledger's integer end time with exact millisecond arithmetic.
  JavaScript compares floating-point numbers. Amounts are unbounded integers, whereas the price
  sort subtracts big-number values as floating-point numbers.
- Clock.CountdownTimer.Tick: does not model JavaScript's number parsing (`parseInt`) of the end
  time; the end time is an integer.
- Wallet.WalletConnection.Cleanup: `removeAllListeners()` acts on the one wallet object that all
  components share, so it also removes handlers that another `WalletConnection` instance
  registered (App renders one in the hero and one in the header). The model keeps a
  `listening` flag per instance and does not capture that this removal is global.
- Bidding.AuctionCard.CheckOwner: the signer's address is a parameter. The `await
  getAddress()` between the check and the update is not modelled, so a result that arrives
  after the card has switched auctions is not captured.
- The `mounted` flag of the wallet effect is read at the point where `checkConnection` resumes.
  The model does not say when React runs the cleanup.
- The commented-out polling effects of the list and the carousel are not modelled.
