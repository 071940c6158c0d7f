# Mood Pulse: a verified model of the voting demo's logic

Mood Pulse is a marketing site with an emoji "mood" voting demo on the Stellar
test network. This project models in Dafny the parts of it that decide
something, one module per source file:

- **EmojiContract** (`emoji_contract.dfy`): the Soroban contract. It keeps an
  append-only log of `EmojiRecord`s (emoji, user, ledger timestamp) in instance
  storage. It is a class whose `stored` field is the storage entry under the key
  "records", with `RecordEmoji`, `GetEmojiData`, `GetTotalVotes` and the counting
  loop of `GetEmojiCount`. The loop is proved against the specification function
  `CountOf`.
- **LiveChart** (`live_chart.dfy`): the statistics of the live chart section.
  These are the total with its fallback to local data, the most popular emoji
  (a `reduce` that keeps the later element on ties), the top three of a sorted
  copy, and the rows handed to the pie chart.
- **EmojiStore** (`emoji_store.dfy`): the local vote store. It holds the selected
  emoji and the list of votes, `castVote` is guarded, and the votes are seeded
  with 5 to 14 random copies per icon.
- **WalletStore** (`wallet_store.dfy`): the connection state and the
  Freighter → MetaMask → mock-address chain of `connect`. The pure function
  `ConnectOutcomeOf` specifies `connect`, and the imperative method
  `Wallet.Connect` is proved to follow it.
- **WalletConnect** (`wallet_connect.dfy`): the wallet button. It covers the
  label, the click dispatch (install page, disconnect or connect) and the
  loading flag around `connect`.
- **FaqSection** (`faq_section.dfy`): the single-open FAQ accordion.
- **StellarService** (`stellar_service.dfy`): the decisions in the client
  helpers. These are the gate in `getPublicKey`, the balance `find` in
  `getAccountBalance`, and where `sendPayment` fails.

Shared value types (`Option`, `External` for the answer of a call outside the
model, `Result` for a settled promise) live in `common.dfy`.

Everything the page asks of the outside world enters as a parameter. That
covers the wallet extension, MetaMask, Horizon, the ledger clock and
`Math.random`. Each such answer is either the value returned or the message
thrown.

The repository's description presents memo-encoded vote aggregation as the
heart of the system. The code calls `StellarService.recordEmojiSelection`,
`getCommunityEmojis` and `isWalletAvailable` (src/hooks/useStellar.ts), but
the repository defines none of them. The model follows the code and leaves
that path out.

## Model

| member | source | states |
|---|---|---|
| EmojiContract.CountOf | emoji-contract/contracts/hello-world/src/lib.rs:47-58 | the number of records carrying an emoji never exceeds the number of records |
| EmojiContract.CountOfAppend | emoji-contract/contracts/hello-world/src/lib.rs:27-33 | appending one record adds one to its own emoji's count and leaves every other emoji's count as it was |
| EmojiContract.CountOfPositive | emoji-contract/contracts/hello-world/src/lib.rs:51-55 | an emoji's count is positive exactly when some record carries it |
| EmojiContract.CountOfAll | emoji-contract/contracts/hello-world/src/lib.rs:51-55 | an emoji's count equals the total exactly when every record carries it |
| EmojiContract.Contract.constructor | emoji-contract/contracts/hello-world/src/lib.rs:60-62 | a fresh instance has nothing stored, and its records read as the empty vector |
| EmojiContract.Contract.GetRecords | emoji-contract/contracts/hello-world/src/lib.rs:60-62 | an absent storage entry reads as the empty vector; a present one reads as stored |
| EmojiContract.Contract.RecordEmoji | emoji-contract/contracts/hello-world/src/lib.rs:17-37 | appends exactly one record (given emoji, given user, ledger time) at the end, keeps the earlier records, returns the emoji, does not store the name; count(emoji) grows by one and every other count stays |
| EmojiContract.Contract.GetEmojiData | emoji-contract/contracts/hello-world/src/lib.rs:39-41 | returns the stored log unchanged and modifies nothing |
| EmojiContract.Contract.GetTotalVotes | emoji-contract/contracts/hello-world/src/lib.rs:43-45 | the number of stored records, zero before the first vote |
| EmojiContract.Contract.GetEmojiCount | emoji-contract/contracts/hello-world/src/lib.rs:47-58 | the counting loop returns the number of records carrying the emoji, at most the total |
| EmojiContract.RepeatedVotesAllCount | emoji-contract/contracts/hello-world/src/lib.rs:17-37 | there is no per-user check: the same user voting twice yields two records, both counted |
| LiveChart.SumCountsZero | src/components/sections/LiveChartSection.tsx:23-24 | with no negative counts, a list sums to zero exactly when every count is zero |
| LiveChart.TotalVotes | src/components/sections/LiveChartSection.tsx:23-24 | the total is one of the two sums, and it differs from the local sum only when it is the non-zero network sum |
| LiveChart.TotalVotesFallsBack | src/components/sections/LiveChartSection.tsx:23-24 | a network list whose counts are all zero, even a non-empty one, gives the local sum |
| LiveChart.TotalVotesPrefersNetwork | src/components/sections/LiveChartSection.tsx:23-24 | a network list with no negative counts and one positive count gives the network sum |
| LiveChart.Source | src/components/sections/LiveChartSection.tsx:28 | the network list when it is non-empty, otherwise the local list |
| LiveChart.ReduceMostPopular | src/components/sections/LiveChartSection.tsx:31-33 | the fold returns an element of the list whose count is at least every count in it |
| LiveChart.ReduceIsLastMaximum | src/components/sections/LiveChartSection.tsx:31-33 | because the comparison is strict, the fold returns the last element of maximal count |
| LiveChart.MostPopular | src/components/sections/LiveChartSection.tsx:27-34 | '❓' for an empty source, otherwise the emoji of a source row with maximal count |
| LiveChart.InsertByCountPermutes | src/components/sections/LiveChartSection.tsx:42 | inserting into the sorted copy adds exactly the inserted row |
| LiveChart.InsertByCountBounded | src/components/sections/LiveChartSection.tsx:42 | inserting a row into rows whose counts are all at most a bound, the row itself within it, keeps every count within the bound |
| LiveChart.InsertByCountSorted | src/components/sections/LiveChartSection.tsx:42 | inserting into a list sorted by descending count keeps it sorted |
| LiveChart.SortByCountDescCorrect | src/components/sections/LiveChartSection.tsx:41-42 | the sorted copy is a permutation of the source in non-increasing count order |
| LiveChart.SortByCountDescLength | src/components/sections/LiveChartSection.tsx:41-42 | the sorted copy has the source's length |
| LiveChart.SortedSplit | src/components/sections/LiveChartSection.tsx:42-44 | cutting a list sorted by descending count keeps the front sorted, the two parts make up the whole, and no row behind the cut has a larger count than one before it |
| LiveChart.TopThreeCorrect | src/components/sections/LiveChartSection.tsx:39-44 | the top three have min(3, n) rows, sorted by non-increasing count, all from the source; with the left-out rows they make up the source exactly, and no left-out row has a larger count than an included one |
| LiveChart.ChartData | src/components/sections/LiveChartSection.tsx:49-59 | same length and order as the source, copying emoji, count and colour of each row |
| LiveChart.MostPopularOnChart | src/components/sections/LiveChartSection.tsx:27-59 | the most popular emoji labels a chart row with the largest count |
| EmojiStore.Repeat | src/store/emojiStore.ts:14 | n copies of the icon and nothing else |
| EmojiStore.InitialVotesShape | src/store/emojiStore.ts:13-15 | the seeded list has between 5n and 14n votes for n icons, and every vote is an icon |
| EmojiStore.InitialVotesLength | src/store/emojiStore.ts:13-15 | the seeded list holds exactly as many votes as copies were drawn in total |
| EmojiStore.InitialVotesBlock | src/store/emojiStore.ts:13-15 | icon i's copies fill the positions right after the copies of the icons before it, so the list is each icon's block in table order |
| EmojiStore.InitialVotesTally | src/store/emojiStore.ts:13-15 | with distinct icons, each icon has exactly its own drawn number of seeded votes, between 5 and 14 |
| EmojiStore.TallyConcat | src/store/emojiStore.ts:13 | the tally of a concatenation is the sum of the tallies, as flatMap concatenates the blocks |
| EmojiStore.TallyRepeat | src/store/emojiStore.ts:14 | n copies of an icon add n to that icon's tally and nothing to any other |
| EmojiStore.TallyAppend | src/store/emojiStore.ts:28-30 | appending a vote adds one to its own emoji's tally and nothing to the others |
| EmojiStore.Store.constructor | src/store/emojiStore.ts:13-16 | the selection starts empty, and the votes are the seeded list |
| EmojiStore.Store.SetSelectedEmoji | src/store/emojiStore.ts:18-20 | sets the selection; the votes are unchanged |
| EmojiStore.Store.CastVote | src/store/emojiStore.ts:22-30 | with an empty selection nothing changes; otherwise exactly the selected emoji is appended after the earlier votes; the selection is kept |
| WalletStore.MockAddress | src/store/walletStore.ts:89-91 | "0x" followed by one lower-case hex character per drawn digit |
| WalletStore.MockAddressShape | src/store/walletStore.ts:89-91 | a mock address has 42 characters: "0x" and 40 hex digits |
| WalletStore.PermissionRefusedStops | src/store/walletStore.ts:41-49 | Freighter connected, not allowed and refusing permission ends connect with the state unchanged, with no MetaMask or mock fallback |
| WalletStore.FreighterAddressWins | src/store/walletStore.ts:53-61 | a non-empty Freighter address is taken, and MetaMask and the random draws do not affect the outcome |
| WalletStore.MetaMaskFallback | src/store/walletStore.ts:69-80 | when Freighter yields no address, an injected provider's first account is taken |
| WalletStore.MockFallback | src/store/walletStore.ts:89-97 | when Freighter yields no address (not connected, a thrown call, an empty or absent address) and MetaMask yields no account (no provider, a thrown request, an empty list), connect connects to the mock address built from the draws, 42 characters starting "0x" |
| WalletStore.ConnectOutcomes | src/store/walletStore.ts:29-98 | connect rejects exactly when Freighter's connection check throws; it returns with the state unchanged exactly when Freighter is connected, permission was not granted and the request for it is refused |
| WalletStore.Wallet.constructor | src/store/walletStore.ts:26-27 | the store starts disconnected with a null address |
| WalletStore.Wallet.Connect | src/store/walletStore.ts:29-98 | the step-by-step chain follows ConnectOutcomeOf and keeps connected ⇔ address ≠ null |
| WalletStore.Wallet.Disconnect | src/store/walletStore.ts:100-105 | disconnected with a null address, keeping the invariant |
| WalletConnect.Slice0 | src/components/ui/WalletConnect.tsx:50 | the first min(6, length) characters, as slice(0, 6) |
| WalletConnect.SliceLast | src/components/ui/WalletConnect.tsx:50 | the last min(n, length) characters for n > 0, as slice(-4) |
| WalletConnect.LoadingLabelWins | src/components/ui/WalletConnect.tsx:47 | while loading the label is 'Bağlanıyor...', whatever else holds |
| WalletConnect.ConnectedLabelShowsEnds | src/components/ui/WalletConnect.tsx:49-51 | connected with an address of at least six characters, the label is its first 6 characters, '...', and its last 4 |
| WalletConnect.DisconnectedLabel | src/components/ui/WalletConnect.tsx:53-57 | disconnected, the label is 'Freighter Yükle' exactly when Freighter is known unavailable, otherwise 'Cüzdan Bağla' |
| WalletConnect.ClickAction | src/components/ui/WalletConnect.tsx:60-68 | a click opens the install page exactly when Freighter is unavailable and no wallet is connected; it disconnects exactly when connected; it calls connect only when neither holds |
| WalletConnect.WalletButton.constructor | src/components/ui/WalletConnect.tsx:12-13 | not loading, and Freighter availability unknown |
| WalletConnect.WalletButton.CheckFreighterWallet | src/components/ui/WalletConnect.tsx:16-28 | availability becomes the answer of the check, or false when it throws |
| WalletConnect.WalletButton.HandleConnect | src/components/ui/WalletConnect.tsx:30-44 | a connected wallet is disconnected without calling connect; otherwise the flag is raised while connect runs and lowered afterwards, also when connect rejects |
| WalletConnect.WalletButton.Click | src/components/ui/WalletConnect.tsx:60-73 | a click on the disabled (loading) button does nothing and the label stays 'Bağlanıyor...'; otherwise it does what ClickAction says and leaves the button not loading |
| FaqSection.Toggle | src/components/sections/FAQSection.tsx:34-36 | clicking the open question closes it; clicking any other opens exactly that one |
| FaqSection.AtMostOneVisible | src/components/sections/FAQSection.tsx:61-68 | an answer is visible iff its index is the open one, so two visible answers are the same answer |
| FaqSection.ToggleShowsOnlyTarget | src/components/sections/FAQSection.tsx:34-36 | after opening a question, its answer is the only visible one |
| FaqSection.ToggleTwiceCloses | src/components/sections/FAQSection.tsx:34-36 | clicking a question twice from the closed state closes it again |
| FaqSection.Accordion.constructor | src/components/sections/FAQSection.tsx:32 | initially no answer is open |
| FaqSection.Accordion.ToggleFaq | src/components/sections/FAQSection.tsx:34-36 | the open index becomes the toggled one, and visibility follows |
| StellarService.GetPublicKey | src/utils/stellarService.ts:17-40 | a key exactly when Freighter is connected, permission is already granted (never requested) and a non-empty address comes back; null on any exception |
| StellarService.FindBalance | src/utils/stellarService.ts:67-70 | the first entry that is native under 'XLM' or carries the asset code; none when no entry matches |
| StellarService.GetAccountBalance | src/utils/stellarService.ts:61-77 | the balance of the first matching entry; '0' when none matches or the account load fails |
| StellarService.DefaultFindsNative | src/utils/stellarService.ts:61-70 | under the default asset code 'XLM' the first native entry's balance is reported when no earlier entry is native or carries the code 'XLM' |
| StellarService.IssuedXlmShadowsNative | src/utils/stellarService.ts:67-70 | an issued asset coded 'XLM' listed before the native entry is what the default query reports, not the native balance |
| StellarService.SendPayment | src/utils/stellarService.ts:84-134 | with no key, it fails with 'Source public key not available' before any network step; it submits only after a key, a loaded account, a built transaction and an error-free signature; it succeeds exactly when the submission answers |
| StellarService.SigningErrorStopsPayment | src/utils/stellarService.ts:117-119 | a signer error fails the payment with that message, before any submission |
| StellarService.NoKeyNoNetwork | src/utils/stellarService.ts:86-89 | when the wallet is not connected or permission is missing, the payment fails before loading any account |

## Left out

- Memo encoding, memo parsing and vote aggregation are left out. The functions that would hold them (`recordEmojiSelection`, `getCommunityEmojis`, `isWalletAvailable`) are called in src/hooks/useStellar.ts but defined nowhere in the repository. The same holds for the store fields the chart and the selector read (`emojiCounts`, `stellarEmojis`, `fetchCommunityEmojis`, `selectEmoji`, `isSubmitting`, `lastTransactionHash`). LiveChart takes the two lists as inputs.
- Network and wallet I/O is not modelled. This covers Horizon `loadAccount` and `submitTransaction`, transaction building, XDR, signing and the Freighter and MetaMask APIs. Only their answers enter the model, as `External` values.
- `getAccountDetails`, `getNetworkInfo` and `createTestnetAccount` are left out as wallet and network I/O. Each makes one external call and has at most one error check: `getNetworkInfo` throws when the extension reports an error (src/utils/stellarService.ts:144-146), and `createTestnetAccount` throws 'Failed to create testnet account' when the faucet's response is not ok (src/utils/stellarService.ts:170-172).
- SendPayment folds `fromXDR` and `submitTransaction` into one `submit` answer, and folds the transaction builder into one `build` answer.
- Soroban storage lifetime (TTL, archival) and the ledger clock are not modelled. The timestamp is a parameter of `RecordEmoji`.
- GetTotalVotes: returns an unbounded natural. The contract's `u32` result width is not modelled, because a vector longer than `u32::MAX` cannot be held in instance storage.
- GetEmojiCount: returns an unbounded natural. The `u32` counter cannot overflow, since the count is at most the vector's length (proved).
- Soroban `Symbol` and `Address` are plain strings. The symbol length limit and character set are not checked.
- TopThreeCorrect: does not state how rows with equal counts are ordered. The model's insertion sort is stable, like JavaScript's sort, but stability is not proved.
- Counts are mathematical integers. JavaScript number behaviour (NaN, fractions, `||` on NaN) is not modelled.
- Strings are sequences of Unicode scalar values, while JavaScript slices UTF-16 code units. The two agree on the ASCII wallet addresses that `slice(0, 6)` and `slice(-4)` are applied to.
- Timers, events and animation are not modelled. This covers the random vote 3 s after `castVote`, the confetti event, the 30 s polling interval, the 1 s delay at the start of `connect`, the confetti component and the canvas animation.
- Interleavings of the asynchronous handlers are not modelled. Each handler runs to completion, so the loading flag is observed by the ghost result of `HandleConnect` and by the disabled-button branch of `Click`.
- The EMOJI_DATA table (src/utils/constants) is not part of this model. The store's constructor takes the icon list as a parameter, and it takes the random copy counts (each 5 to 14) as a parameter too.
- Console logging (`console.log`, `console.warn`, `console.error`) is dropped, for example at src/store/walletStore.ts:42,47,56,64,83,93 and src/utils/stellarService.ts:22,29,37; it changes no state and no result.
- The PieChart layout and its rounded percentages, the CLI scripts (account creation, contract deployment) and the presentation-only components are left out.
