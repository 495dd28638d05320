# vocalSide frontend core, modelled in Dafny

This project models the decision logic of the vocalSide web frontend, a voice-health
application, and proves properties of that logic. The model covers six parts of the frontend:

- **Resource hub** (`app/resource-hub/page.tsx`). A marketplace page for PDF resources kept on a
  ledger contract and stored on IPFS. It loads the listing after verifying the contract,
  checks ownership once per resource, validates the chosen PDF, and uploads it in two stages
  (storage, then ledger registration) with a progress bar. It also buys a resource through a
  single purchasing slot, turns errors into messages, and follows wallet account changes.
  - `ResourceHub` describes each handler as a transition on the page state (`HubState`).
  - `ResourceHubPage.Page` holds the same state in fields, one per React state value. Its
    methods update those fields step by step, with early returns and the try/catch/finally order
    of the source. Each method is proved to end in exactly the state the matching transition
    gives.
  - The lemmas about the transitions state the ordering, fail-fast and "nothing else changes"
    properties.
- **Upload API route** (`app/api/upload/route.js`). `UploadRoute.Post` is the `POST` handler
  as a function. It returns the reply and the list of file-system and process requests it
  makes. The outcomes of those requests are fields of `Env`. Its pieces are modelled on their
  own:
  - form-field defaulting;
  - double-quote escaping, with its inverse;
  - the `IPFS_HASH:` regular-expression match.
- **Chatbot** (`app/dashboard/chatbot/page.tsx`). `Chatbot.GetBotResponse` is the
  priority-ordered, case-insensitive keyword classifier. `Chatbot.ChatSession` is the
  conversation state. In the model, where each reply is appended together with its message,
  the invariant is that after the greeting the messages come in (user message, classifier
  reply) pairs.
- **Voice analysis** (`app/analysis/page.tsx`). The size and WAV acceptance rule, and
  `Analysis.AnalysisPage`, whose `AnalyzeAudio` method:
  - clears the shown result;
  - posts the recording;
  - on success, prepends a record to the signed-in user's history, which is kept in a map
    standing for local storage.
- **Dashboard** (`app/dashboard/page.tsx`), all in `Dashboard`:
  - the counts and rounded percentages over the stored history;
  - the score label and bar colour;
  - the low-risk bar and its non-zero total;
  - the five most recent analyses.
- **Endpoint builders** (`lib/config.ts`). `Config` defines the audio, report, download and plot
  URLs. The constant `Config.Audio` is `API_BASE_URL + "/audio"` by definition.

The ledger helpers (`verifyContract`, `getResources`, `checkResourceOwnership`, `uploadResource`,
`purchaseResource`) and the storage helper `uploadFile` are defined in `lib/contractUtils` and
`lib/uploadUtils`. Neither is part of this model. The browser wallet and the `ethers` library
are not part of it either.

- **Outcomes as parameters.** What each of those calls returns or throws is a parameter of the
  handler that makes the call (the outcome types in `Gateways`).
- **A ghost call record.** Each call is recorded in order in the ghost field `calls`. This is
  what lets the ordering properties be stated.
- **Stale closures.** `checkEthBalance` reads the `walletConnected` of the render its closure
  belongs to. The model passes that value explicitly as `connectedAtRender`.
  - `connectWallet` passes the value it started with.
  - The listeners installed on mount pass `false`, so their balance checks do nothing.
  - The check after a purchase passes `true`, since the guard has just passed.

Two consequences of the code as written are modelled and proved:

- Connecting from a disconnected render never refreshes the shown balance
  (`ResourceHub.ConnectFromDisconnectedSkipsBalance`).
- `connectWallet` catches its own errors. For every thrown value the model represents (an
  object whose `message` can be read and whose JSON text can be computed), the `catch` around
  it in `onSubmit` (resource-hub/page.tsx:342-349) therefore never runs. An upload goes ahead
  even after a refused connection (`ResourceHub.AfterConnect`, `ResourceHub.ConnectRefused`).

## Model

| member | source | states |
|---|---|---|
| Strings.ContainsIff | frontend/app/dashboard/chatbot/page.tsx:62-74 | `includes` as scanned holds exactly when the pattern occurs at some index |
| Strings.ContainsTransitive | frontend/app/dashboard/chatbot/page.tsx:62 | a string containing `s` contains everything `s` contains |
| Strings.ContainsWitness | frontend/app/dashboard/chatbot/page.tsx:62-74 | a successful `includes` scan yields an index where the pattern occurs |
| Strings.OccurrenceContained | frontend/app/dashboard/chatbot/page.tsx:62-74 | any occurrence of the pattern makes `includes` true |
| Strings.AsciiLower | frontend/app/dashboard/chatbot/page.tsx:60 | `toLowerCase` keeps the length and lowers each ASCII letter in place |
| Strings.AsciiLowerIdempotent | frontend/app/dashboard/chatbot/page.tsx:60 | lowering twice is lowering once |
| Strings.NatToDecimal | frontend/app/dashboard/chatbot/page.tsx:36 | `Date.now().toString()` is a non-empty digit string with no leading zero |
| Strings.DecimalRoundTrip | frontend/app/dashboard/chatbot/page.tsx:36 | reading the digits back gives the number |
| Strings.NatToDecimalInjective | frontend/app/dashboard/chatbot/page.tsx:36 | different times give different ids |
| Strings.DigitChar | frontend/app/dashboard/chatbot/page.tsx:36 | a digit below ten becomes the character whose value it is |
| Strings.DigitValue | frontend/app/dashboard/chatbot/page.tsx:36 | a digit character's value is below ten |
| Config.Report | frontend/lib/config.ts:7 | the report URL is the report prefix followed by the path, unchanged |
| Config.ReportDownload | frontend/lib/config.ts:7-8 | the download URL is the report URL plus `?download=true` |
| Config.Plot | frontend/lib/config.ts:9 | the plot URL is the plot prefix followed by the path |
| Config.ReportRoundTrip | frontend/lib/config.ts:7 | the report path is recovered from its URL, and only report URLs yield one |
| Config.ReportInjective | frontend/lib/config.ts:7 | different report paths never share a URL |
| Config.DownloadIsReportOfQueriedPath | frontend/lib/config.ts:7-8 | a download link is the report link of the same path plus the query |
| Config.PlotNeverReport | frontend/lib/config.ts:7-9 | no plot URL coincides with a report URL |
| UploadRoute.FieldOrEmpty | frontend/app/api/upload/route.js:24-27 | an absent or empty text field reads as "", any other as its value |
| UploadRoute.Escape | frontend/app/api/upload/route.js:60-63 | the escaped text is longer by exactly the number of quotes |
| UploadRoute.EscapedQuotesArePreceded | frontend/app/api/upload/route.js:60-63 | every quote of escaped text has a backslash before it |
| UploadRoute.EscapeRoundTrip | frontend/app/api/upload/route.js:60-63 | unescaping gives back the original characters in order |
| UploadRoute.EscapeWithoutQuotes | frontend/app/api/upload/route.js:60-63 | text without quotes is left unchanged |
| UploadRoute.PriceNotEscaped | frontend/app/api/upload/route.js:60-66 | the price is the last quoted argument, verbatim; the command before it does not depend on it |
| UploadRoute.UploadCommand | frontend/app/api/upload/route.js:66 | the command line, as its definition; `UploadRoute.PriceNotEscaped` states which arguments are escaped |
| UploadRoute.AlnumRun | frontend/app/api/upload/route.js:78 | the greedy `[a-zA-Z0-9]+` run is a prefix of letters and digits followed by a non-alphanumeric character or the end |
| UploadRoute.FirstMatch | frontend/app/api/upload/route.js:78 | the match found is the leftmost position where the sentinel is followed by a letter or digit, and none means there is no such position |
| UploadRoute.ExtractHashSpec | frontend/app/api/upload/route.js:78-87 | the hash is the maximal non-empty alphanumeric run after the leftmost usable sentinel; there is none exactly when no sentinel is usable |
| UploadRoute.ExtractHash | frontend/app/api/upload/route.js:78-87 | group 1 of the first match, as its definition; `UploadRoute.ExtractHashSpec` characterises it independently |
| UploadRoute.SentinelLineYieldsHash | frontend/app/api/upload/route.js:78-87 | output `IPFS_HASH:<hash>` followed by a non-alphanumeric character yields exactly that hash |
| UploadRoute.AlnumRunOf | frontend/app/api/upload/route.js:78 | the run of an alphanumeric string followed by a non-alphanumeric character is that string |
| UploadRoute.Post | frontend/app/api/upload/route.js:11-110 | the status is 200, 400 or 500, and it is 200 exactly when the body is the success body |
| UploadRoute.NoFileRejectedFirst | frontend/app/api/upload/route.js:16-21 | a missing file gets 400 'No file provided', and nothing is written or run |
| UploadRoute.ScriptRunsOnlyAfterWrite | frontend/app/api/upload/route.js:40-70 | the script runs at most once, as the third request, only after a successful write |
| UploadRoute.SuccessReply | frontend/app/api/upload/route.js:87-99 | a 200 carries the extracted non-empty hash, its gateway URL and the four fields as read |
| UploadRoute.MissingHashReply | frontend/app/api/upload/route.js:78-85 | output without a usable sentinel gives 500 'Could not get IPFS hash from upload script' |
| UploadRoute.ThrownErrorsArePrefixed | frontend/app/api/upload/route.js:101-106 | every thrown error is a 500 whose message starts with 'Internal server error during upload: ' |
| Chatbot.GetBotResponse | frontend/app/dashboard/chatbot/page.tsx:59-75 | the reply is always one of the six fixed replies |
| Chatbot.Classify | frontend/app/dashboard/chatbot/page.tsx:62-74 | the if/else chain always yields one of the six fixed replies |
| Chatbot.RepliesDistinct | frontend/app/dashboard/chatbot/page.tsx:62-74 | the six replies are pairwise different |
| Chatbot.FirstMatchingRuleWins | frontend/app/dashboard/chatbot/page.tsx:62-74 | the reply is rule k's exactly when rule k matches the lowered text and no earlier rule does |
| Chatbot.CaseInsensitive | frontend/app/dashboard/chatbot/page.tsx:60 | lower-casing the input first never changes the reply |
| Chatbot.HoarsenessImpliesHoarse | frontend/app/dashboard/chatbot/page.tsx:62 | text containing 'hoarseness' contains 'hoarse' |
| Chatbot.ExerciseNeedsBoth | frontend/app/dashboard/chatbot/page.tsx:66 | without both 'vocal' and 'exercise' the exercise reply is never given |
| Chatbot.ExchangeKeepsConversation | frontend/app/dashboard/chatbot/page.tsx:42-55 | appending a user message and its classifier reply keeps the conversation shape |
| Chatbot.ChatSession.constructor | frontend/app/dashboard/chatbot/page.tsx:21-29 | the page opens with an empty input and exactly the greeting, a bot message with id '1' |
| Chatbot.ChatSession.SetInput | frontend/app/dashboard/chatbot/page.tsx:21 | the input box holds the typed text |
| Chatbot.ChatSession.SendMessage | frontend/app/dashboard/chatbot/page.tsx:31-57 | blank input changes nothing; otherwise the untrimmed text is appended as a user message, the input is cleared, the reply to that text follows, and the conversation shape is kept |
| Chatbot.ExchangeIdsDistinct | frontend/app/dashboard/chatbot/page.tsx:36-49 | the user message and its reply get different ids |
| Analysis.CheckAudioFile | frontend/app/analysis/page.tsx:27-48 | accepted exactly when at most 10 MiB and WAV; oversized files are rejected before the type test |
| Analysis.IsWavFile | frontend/app/analysis/page.tsx:36-41 | WAV by one of three MIME types or a `.wav` ending, as its definition; `Analysis.CheckAudioFile` and `Analysis.VerdictIgnoresNameCase` state its use |
| Analysis.SizeBoundary | frontend/app/analysis/page.tsx:22-33 | exactly 10 MiB passes the size check and one byte more fails it |
| Analysis.VerdictIgnoresNameCase | frontend/app/analysis/page.tsx:36-41 | two names that lower-case alike get the same verdict, for every MIME type and size |
| Analysis.LowerCasedNameSameVerdict | frontend/app/analysis/page.tsx:36-41 | a name and its lower-cased form get the same verdict |
| Analysis.HistoryKey | frontend/app/analysis/page.tsx:83 | the key is 'analysis_history_' followed by the uid |
| Analysis.HistoryKeyInjective | frontend/app/analysis/page.tsx:83 | different users never share a history key |
| Analysis.RiskLevelOrLow | frontend/app/analysis/page.tsx:91 | an absent or empty risk level becomes 'low', any other is kept |
| Analysis.NewRecord | frontend/app/analysis/page.tsx:87-94 | the stored record carries the reply's prediction, report path, plot path and defaulted risk level |
| Analysis.RecordsHistory | frontend/app/analysis/page.tsx:81 | the `user && data.ReportPath` guard, as its definition; `Analysis.AnalysisPage.AnalyzeAudio` states when the history is written |
| Analysis.StoredHistory | frontend/app/analysis/page.tsx:83-84 | the stored list under the user's key, or none, as its definition; `Analysis.PrependKeepsOthers` states how a write changes it |
| Analysis.AnalysisPage.constructor | frontend/app/analysis/page.tsx:14-19 | the page opens with nothing chosen, nothing shown and not loading |
| Analysis.AnalysisPage.HandleFileChange | frontend/app/analysis/page.tsx:24-49 | an accepted file is selected with its URL; a rejected one raises its alert and leaves the selection unchanged |
| Analysis.AnalysisPage.AnalyzeAudio | frontend/app/analysis/page.tsx:51-108 | no file only alerts; otherwise results are cleared, one request is posted, and loading ends false; a good reply is shown and, for a signed-in user with a report, prepended to their history; every other outcome alerts and writes nothing |
| Analysis.PrependKeepsOthers | frontend/app/analysis/page.tsx:83-100 | the new record comes first, the older ones follow in order, and other users' histories are unchanged |
| Dashboard.HealthyResults | frontend/app/dashboard/page.tsx:47 | the filtered list holds only healthy results taken from the history |
| Dashboard.HealthyCount | frontend/app/dashboard/page.tsx:47 | the length of the filtered list, as its definition; `Dashboard.CountsPartitionHistory` states its meaning |
| Dashboard.IssuesCount | frontend/app/dashboard/page.tsx:48 | the total minus the healthy count, as its definition; `Dashboard.CountsPartitionHistory` proves it counts the unhealthy results |
| Dashboard.CountsPartitionHistory | frontend/app/dashboard/page.tsx:46-48 | the healthy and issue counts add up to the total, and the issues are exactly the unhealthy results |
| Dashboard.AllHealthyCounted | frontend/app/dashboard/page.tsx:47-48 | a history of healthy results is counted in full, with no issues |
| Dashboard.RoundedPercent | frontend/app/dashboard/page.tsx:49-50 | the zero-guarded rounded share, as its definition; `Dashboard.PercentBounds` and `Dashboard.RoundedSharesSum` state its properties |
| Dashboard.HealthyPercentage | frontend/app/dashboard/page.tsx:49 | the rounded healthy share, as its definition; `Dashboard.PercentagesOfHistory` states its bounds |
| Dashboard.IssuesPercentage | frontend/app/dashboard/page.tsx:50 | the rounded issues share, as its definition; `Dashboard.PercentagesOfHistory` states its bounds |
| Dashboard.PercentBounds | frontend/app/dashboard/page.tsx:49-50 | a rounded share is 0 for no analyses or no part, 100 for the whole, and never above 100 |
| Dashboard.PercentagesOfHistory | frontend/app/dashboard/page.tsx:49-50 | both percentages are 0 with no analyses; otherwise each is at most 100 and they sum to 100 or 101 |
| Dashboard.RoundedSharesSum | frontend/app/dashboard/page.tsx:49-50 | the rounded shares of a part and its complement sum to 100 or 101 |
| Dashboard.ScoreLabel | frontend/app/dashboard/page.tsx:155-165 | "Good" above 50, as its definition; `Dashboard.ColourAgreesWithLabel` relates it to the colour |
| Dashboard.ScoreColour | frontend/app/dashboard/page.tsx:169 | the bar colour thresholds, as their definition; `Dashboard.ColourAgreesWithLabel` relates them to the label |
| Dashboard.ColourAgreesWithLabel | frontend/app/dashboard/page.tsx:155-169 | a green bar always reads 'Good' and a red one never does |
| Dashboard.RiskLow | frontend/app/dashboard/page.tsx:68 | the low-risk count is at least 1 and at least the healthy count |
| Dashboard.TotalRisk | frontend/app/dashboard/page.tsx:72 | the risk total is at least 1 |
| Dashboard.RiskSharesDefined | frontend/app/dashboard/page.tsx:217-254 | the risk bars never divide by zero, the low share is at most 100, and it is 100 when the other counts are 0 |
| Dashboard.RecentAnalyses | frontend/app/dashboard/page.tsx:271 | at most five entries, and they are the first ones of the history, in order |
| Dashboard.NewestShownFirst | frontend/app/dashboard/page.tsx:271 | a newly prepended analysis is shown first, before the earlier recent list |
| Gateways.ThrownError | frontend/app/resource-hub/page.tsx:375 | `new Error(m)` is an `Error` with message m |
| Gateways.OrElse | frontend/app/resource-hub/page.tsx:375 | `text || fallback` on strings: the text unless it is empty |
| ResourceHub.IsOwned | frontend/app/resource-hub/page.tsx:254-260 | a resource is owned exactly when its check answered yes; a failed check means not owned |
| ResourceHub.MergeOwnership | frontend/app/resource-hub/page.tsx:251-263 | same length and order as the listing, each resource paired with its own check's answer |
| ResourceHub.OwnershipCalls | frontend/app/resource-hub/page.tsx:251-256 | one ownership check per listed resource, in listing order |
| ResourceHub.CheckPdf | frontend/app/resource-hub/page.tsx:290-309 | acceptable exactly when the type is application/pdf and the size at most 10 MiB; the type is checked first |
| ResourceHub.EffectivePrice | frontend/app/resource-hub/page.tsx:392 | an empty price becomes "0.005", any other is kept |
| ResourceHub.Load | frontend/app/resource-hub/page.tsx:196-284 | `loadResources`, as its definition; `ResourceHub.LoadFrame`, `ResourceHub.LoadWithoutWallet`, `ResourceHub.VerificationFailsFast`, `ResourceHub.ConnectionFailureClearsListing` and `ResourceHub.ListingOutcome` state its properties |
| ResourceHub.CheckBalance | frontend/app/resource-hub/page.tsx:141-154 | `checkEthBalance` for a given render, as its definition; `ResourceHub.BalanceFrame` states its properties |
| ResourceHub.ConnectWallet | frontend/app/resource-hub/page.tsx:156-194 | `connectWallet`, as its definition; `ResourceHub.ConnectRefused` and `ResourceHub.ConnectFromDisconnectedSkipsBalance` state its properties |
| ResourceHub.Mount | frontend/app/resource-hub/page.tsx:68-94 | `checkWalletConnection`, as its definition; `ResourceHub.MountWithoutAccountsKeepsSpinner` states its property |
| ResourceHub.AccountsChanged | frontend/app/resource-hub/page.tsx:98-108 | `handleAccountsChanged`, as its definition; `ResourceHub.EmptyAccountsDisconnect` and `ResourceHub.AccountsReload` state its properties |
| ResourceHub.SelectFile | frontend/app/resource-hub/page.tsx:286-312 | `handleFileChange`, as its definition; `ResourceHub.SelectFileRule` states its property |
| ResourceHub.Refresh | frontend/app/resource-hub/page.tsx:469-485 | `refreshResources`, as its definition; `ResourceHub.RefreshFrame` states its property |
| ResourceHub.AfterConnect | frontend/app/resource-hub/page.tsx:333-350 | the connect step of `onSubmit`, as its definition; `ResourceHub.ConnectRefused` shows that a refusal still lets the upload go on |
| ResourceHub.Transfer | frontend/app/resource-hub/page.tsx:352-384 | the storage half of the upload, as its definition; `ResourceHub.TransferStored`, `ResourceHub.TransferUnstored` and `ResourceHub.UploadCalls` state its properties |
| ResourceHub.Register | frontend/app/resource-hub/page.tsx:386-406 | the ledger half of the upload, as its definition; `ResourceHub.RegisterSteps` states its properties |
| ResourceHub.Answered | frontend/app/resource-hub/page.tsx:410-435 | the ledger reply handling, as its definition; `ResourceHub.AnsweredSteps` states its properties |
| ResourceHub.Submit | frontend/app/resource-hub/page.tsx:314-467 | `onSubmit`, as its definition; `ResourceHub.SubmitGuards`, `ResourceHub.SubmitEndsIdle`, `ResourceHub.UploadProgress` and `ResourceHub.UploadPrice` state its properties |
| ResourceHub.PurchaseAttempt | frontend/app/resource-hub/page.tsx:497-544 | the `try` block of `handlePurchase`, as its definition; `ResourceHub.PurchaseCallsLedger` states its property |
| ResourceHub.Purchase | frontend/app/resource-hub/page.tsx:487-548 | `handlePurchase`, as its definition; `ResourceHub.PurchaseNeedsWallet`, `ResourceHub.PurchasingSlot` and `ResourceHub.BoughtFrame` state its properties |
| ResourceHub.UploadErrorMessage | frontend/app/resource-hub/page.tsx:440-452 | the upload catch's message, as its definition; `ResourceHub.UploadErrorPrecedence` and `ResourceHub.MessageOrdersDiffer` state its order |
| ResourceHub.PurchaseErrorMessage | frontend/app/resource-hub/page.tsx:528-538 | the purchase catch's message, as its definition; `ResourceHub.PurchaseErrorPrecedence` and `ResourceHub.MessageOrdersDiffer` state its order |
| ResourceHub.CardActionFor | frontend/app/resource-hub/page.tsx:690-706 | a card's button, as its definition; `ResourceHub.CardActionRule` states its rule |
| ResourceHub.Browse | frontend/app/resource-hub/page.tsx:639-712 | the browse tab's view, as its definition; `ResourceHub.BrowseAfterLoad` states what it shows after a load |
| ResourceHub.LoadFrame | frontend/app/resource-hub/page.tsx:196-284 | every load ends with loading false, only appends to the toasts and calls, makes only load calls, and changes nothing outside the listing |
| ResourceHub.VerifiedFrame | frontend/app/resource-hub/page.tsx:217-284 | the same, from verification on |
| ResourceHub.ListingFrame | frontend/app/resource-hub/page.tsx:238-271 | the same, from the listing on; it adds only ownership checks and no toast |
| ResourceHub.LoadWithoutWallet | frontend/app/resource-hub/page.tsx:198-207 | without a wallet object the load records the no-wallet error, calls nothing and keeps the resources |
| ResourceHub.VerificationFailsFast | frontend/app/resource-hub/page.tsx:217-231 | a missing contract or missing functions keeps the verifier's error and the resources; no listing or ownership call is made |
| ResourceHub.ConnectionFailureClearsListing | frontend/app/resource-hub/page.tsx:272-283 | a failure to get the signer or to verify empties the resources, sets the connection error, and shows the error toast |
| ResourceHub.ListingOutcome | frontend/app/resource-hub/page.tsx:238-271 | a thrown listing gives [] and the retrieval error; an empty listing gives [] with no ownership call; otherwise one check per resource, merged in order |
| ResourceHub.OwnershipFailureIsolated | frontend/app/resource-hub/page.tsx:251-263 | a failed check affects only its own entry, which becomes not owned |
| ResourceHub.BrowseAfterLoad | frontend/app/resource-hub/page.tsx:639-706 | after a load, a non-empty error shows the notice; a non-empty listing shows one card per resource, offering download exactly when that resource is owned |
| ResourceHub.MountWithoutAccountsKeepsSpinner | frontend/app/resource-hub/page.tsx:66-94 | with no connected account on mount no load runs, so the spinner stays |
| ResourceHub.BalanceFrame | frontend/app/resource-hub/page.tsx:141-154 | a balance check changes only the balance and the calls; it does nothing unless the wallet object exists and the render was connected |
| ResourceHub.ConnectFromDisconnectedSkipsBalance | frontend/app/resource-hub/page.tsx:156-180 | connecting from a disconnected render sets the wallet connected, requests accounts, makes only load calls after that, and keeps the old balance |
| ResourceHub.ConnectRefused | frontend/app/resource-hub/page.tsx:163-186 | a refused request adds only the request call and the 'Connection Failed' toast |
| ResourceHub.EmptyAccountsDisconnect | frontend/app/resource-hub/page.tsx:98-108 | an empty account list disconnects and empties the resources, changing nothing else |
| ResourceHub.AccountsReload | frontend/app/resource-hub/page.tsx:98-103 | a non-empty list connects and reloads, leaving the balance, the upload and the purchasing slot alone |
| ResourceHub.SelectFileRule | frontend/app/resource-hub/page.tsx:286-312 | an acceptable file becomes the selection; a rejected one adds one toast and changes nothing else |
| ResourceHub.SubmitGuards | frontend/app/resource-hub/page.tsx:314-331 | with no selected file or no wallet object, only one toast is added and no call is made |
| ResourceHub.RefreshFrame | frontend/app/resource-hub/page.tsx:469-485 | a refresh only appends, ends with loading false, and keeps the upload state, the slot and the connection |
| ResourceHub.RegisteredFrame | frontend/app/resource-hub/page.tsx:415-435 | after registration the bar is at 100, success is set, the file is cleared, and calls are only appended |
| ResourceHub.RegisterSteps | frontend/app/resource-hub/page.tsx:386-435 | price conversion, then registration, are the next calls; the bar reaches 75 once converted and 100 once registered; otherwise the upload state is unchanged |
| ResourceHub.AnsweredSteps | frontend/app/resource-hub/page.tsx:410-435 | a registration success completes the upload state; a failure leaves it unchanged |
| ResourceHub.TransferStored | frontend/app/resource-hub/page.tsx:352-388 | after a stored file the upload continues with the ledger, after exactly the storage call and the signer |
| ResourceHub.TransferUnstored | frontend/app/resource-hub/page.tsx:352-376 | storage that throws stops at 10; storage that reports failure stops at 50 |
| ResourceHub.UploadCalls | frontend/app/resource-hub/page.tsx:352-410 | the storage upload is the first call; the ledger is reached only after it reports success |
| ResourceHub.UploadProgress | frontend/app/resource-hub/page.tsx:352-420 | the bar runs through a prefix of 10, 50, 75, 100 that is complete exactly when registration succeeds; only then are success set and the file cleared |
| ResourceHub.StoredProgress | frontend/app/resource-hub/page.tsx:372-415 | past storage, the bar's steps are a prefix of 10, 50, 75, 100 that is complete exactly on ledger success |
| ResourceHub.SubmitEndsIdle | frontend/app/resource-hub/page.tsx:459-460 | once the guards pass, uploading is false afterwards on every path; before that the upload state is untouched |
| ResourceHub.UploadPrice | frontend/app/resource-hub/page.tsx:392 | the conversion is given the entered price, or "0.005" when it is empty |
| ResourceHub.PurchaseNeedsWallet | frontend/app/resource-hub/page.tsx:488-495 | without a connected wallet a purchase only adds the 'Wallet Not Connected' toast |
| ResourceHub.BoughtFrame | frontend/app/resource-hub/page.tsx:516-523 | after a purchase the reload only appends calls, ends with loading false, and keeps the slot |
| ResourceHub.PurchasingSlot | frontend/app/resource-hub/page.tsx:497-547 | during a purchase the slot holds the id and its card's button is disabled; afterwards the slot is empty on every path |
| ResourceHub.PurchaseCallsLedger | frontend/app/resource-hub/page.tsx:505-510 | after the signer, the purchase call carries the listed id and price |
| ResourceHub.CardActionRule | frontend/app/resource-hub/page.tsx:690-706 | owned resources offer Download; others offer Purchase, disabled exactly while it is the one being bought |
| ResourceHub.UploadErrorPrecedence | frontend/app/resource-hub/page.tsx:440-452 | upload errors: a non-Error first, then 'user rejected', then 'insufficient funds', then 'IPFS', else the raw message |
| ResourceHub.PurchaseErrorPrecedence | frontend/app/resource-hub/page.tsx:528-538 | purchase errors: no message first, then 'insufficient funds', then 'user rejected', else "Error: " + message |
| ResourceHub.MessageOrdersDiffer | frontend/app/resource-hub/page.tsx:440-538 | a message with both phrases reads 'rejected' on upload and 'not enough ETH' on purchase |
| ResourceHubPage.Page.constructor | frontend/app/resource-hub/page.tsx:45-55 | the page starts loading, disconnected, with balance "0" and nothing else set |
| ResourceHubPage.Page.Notify | frontend/app/resource-hub/page.tsx:356-359 | a toast is appended to those shown |
| ResourceHubPage.Page.LoadFailed | frontend/app/resource-hub/page.tsx:272-283 | the outer catch and finally, as `LoadCrashed` describes |
| ResourceHubPage.Page.LoadResources | frontend/app/resource-hub/page.tsx:196-284 | the new state is `Load` of the old one |
| ResourceHubPage.Page.CheckOwnerships | frontend/app/resource-hub/page.tsx:251-263 | the loop's entries are the listing merged with the ownership answers, and its checks are one per resource in order |
| ResourceHubPage.Page.CheckEthBalance | frontend/app/resource-hub/page.tsx:141-154 | the new state is `CheckBalance` of the old one, for the given render |
| ResourceHubPage.Page.ConnectWallet | frontend/app/resource-hub/page.tsx:156-194 | the new state is `ConnectWallet` of the old one |
| ResourceHubPage.Page.CheckWalletConnection | frontend/app/resource-hub/page.tsx:68-94 | the new state is `Mount` of the old one |
| ResourceHubPage.Page.HandleAccountsChanged | frontend/app/resource-hub/page.tsx:98-108 | the new state is `AccountsChanged` of the old one |
| ResourceHubPage.Page.HandleDisconnect | frontend/app/resource-hub/page.tsx:120-123 | only the connection flag is cleared |
| ResourceHubPage.Page.HandleFileChange | frontend/app/resource-hub/page.tsx:286-312 | the new state is `SelectFile` of the old one |
| ResourceHubPage.Page.SetUploadProgress | frontend/app/resource-hub/page.tsx:354 | the bar holds the value, and the value is appended to the recorded steps |
| ResourceHubPage.Page.RefreshResources | frontend/app/resource-hub/page.tsx:469-485 | the new state is `Refresh` of the old one |
| ResourceHubPage.Page.UploadCaught | frontend/app/resource-hub/page.tsx:436-458 | the catch of `onSubmit` adds the classified 'Upload Failed' toast |
| ResourceHubPage.Page.UploadSelected | frontend/app/resource-hub/page.tsx:352-384 | the new state is `Transfer` of the old one |
| ResourceHubPage.Page.RegisterUpload | frontend/app/resource-hub/page.tsx:386-406 | the new state is `Register` of the old one |
| ResourceHubPage.Page.LedgerAnswered | frontend/app/resource-hub/page.tsx:410-435 | the new state is `Answered` of the old one |
| ResourceHubPage.Page.OnSubmit | frontend/app/resource-hub/page.tsx:314-467 | the new state is `Submit` of the old one |
| ResourceHubPage.Page.UploadTimerElapsed | frontend/app/resource-hub/page.tsx:462-465 | progress returns to 0 and success to false |
| ResourceHubPage.Page.HandlePurchase | frontend/app/resource-hub/page.tsx:487-548 | the new state is `Purchase` of the old one |
| ResourceHubPage.Page.TryPurchase | frontend/app/resource-hub/page.tsx:497-544 | the new state is `PurchaseAttempt` of the old one |

## Left out

- The ledger and storage helpers (`lib/contractUtils`, `lib/uploadUtils`) and `ethers` are outside the model. This covers `BrowserProvider`, `getSigner`, `getAddress`, `listAccounts`, `getBalance`, `formatEther` and `parseEther`. Their outcomes are parameters, so no decimal-to-wei conversion is claimed. `getFileUrl` is not modelled either: the Download card keeps its content identifier.
- Wallet event plumbing is left out: registering and removing listeners, `connect` logging, and the page reload on `chainChanged`. Only the state effect of each handler is kept.
- The timers are left out (the 2-second pause before a refresh, the 3-second progress reset, the 1-second bot reply). Each delayed step runs as its own step: `UploadTimerElapsed` for the reset, and within `SendMessage` for the reply.
- `Promise.all` over the ownership checks is modelled as a loop that starts the checks in listing order. No interleaving is modelled, since the page's result does not depend on one.
- `reset()` of the upload form, form validation, and the click on the browse tab are user-interface effects and are left out.
- The success reply of `uploadFile` is assumed to carry `data`. If `data` were missing, the destructuring would throw, and that path is not modelled.
- A `null` listing from `getResources` is treated as an empty one, which the page handles the same way.
- `JSON.stringify(error)` in the connection-failure toast is a field of the thrown value (`JsError.json`), not computed.
- Console logging is left out.
- ResourceHub.AfterConnect: thrown values that are `null` or `undefined`, or objects without a message whose JSON text cannot be computed (a cycle, a `BigInt`), are not represented, because `JsError` always has a readable message and a JSON text. For such a value, reading `error.message` or calling `JSON.stringify` in the catch of `connectWallet` (resource-hub/page.tsx:181-186), or in the catches of `loadResources` (resource-hub/page.tsx:267-280), throws again. `connectWallet` then rejects, and the catch in `onSubmit` (resource-hub/page.tsx:342-349) shows 'Wallet Connection Failed' and returns without uploading. The model always goes on to the upload.
- ResourceHub.ConnectWallet: for the same thrown values, a rejection escaping `loadResources` would end `connectWallet` with 'Connection Failed' rather than 'Wallet Connected'. That path is not modelled.
- The upload route's file system and child process:
  - `mkdir` is left out; its failure is caught and ignored by the route.
  - `writeFile` and `exec` are reduced to their outcomes in `Env`.
  - `path.join`/`path.resolve` are left out: the upload path is the directory, `/`, and the file name, with no normalisation.
  - `Date.now()` is a field of `Env`.
  - The `stderr` logging is left out.
- `frontend/test/test-contract.js` is a network diagnostic and is not part of this model.
- Local storage is a map from keys to record lists. JSON encoding and parsing are left out. So is a stored history that fails to parse.
- Chatbot.ChatSession.SendMessage: the bot reply is appended one second later by a timer, while the input is already cleared. Two sends within that second give `[greeting, u1, u2, b1, b2]`, which breaks the (user message, reply) pairing. The model appends each reply in the same step as its message, so `Chatbot.Conversation` is an invariant of the model, not of every interleaving the page allows.
- Analysis.AudioReply: `prediction` is always present in the model. A reply without `Prediction` would show an undefined result and store a record without a prediction, and the dashboard's `item.prediction.includes` would then throw. That path is not modelled.
- UploadRoute.Form: the `title`, `description` and `category` entries are text only. An entry sent as a file passes `|| ''`, then its `.replace` throws, which gives a 500 through the route's catch. That path is not modelled.
- Analysis.AnalysisPage.AnalyzeAudio: the history write is modelled as always succeeding. Stored JSON that parses to something other than an array (such as `null`) makes `unshift` throw, and so does a `setItem` that exceeds the storage quota. Either would raise the failure alert after the result was already shown. Neither path is modelled.
- Firebase authentication and `uuid` are left out: the signed-in user and the record id are parameters.
- The dashboard's `Math.random` chart data and its month slicing are left out.
- Dashboard.TotalRisk: the medium and high risk counts are floors of floating-point products. They are taken as arbitrary non-negative integers, so only the lower bound and the zero guard are stated.
- Dashboard.RoundedPercent: `Math.round` of a floating-point quotient is modelled as exact rational rounding, half up. The property stated is the 0..100 bound.
- Strings.AsciiLower: `toLowerCase` is modelled on ASCII letters only. Every keyword the chatbot looks for is ASCII, but non-ASCII letters in a file name or message are not lowered as JavaScript would lower them.
- Strings.NatToDecimal: `Date.now()` values are taken as any natural number; millisecond timestamps fit in the integers JavaScript prints exactly.
- The viewing and downloading handlers of the analysis page and the dashboard call `window.open` on `Config.Report` and `Config.ReportDownload`. Only the URLs are modelled.
