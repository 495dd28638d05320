/**
 * The resource hub page as a state machine: its state as a value, one transition per event
 * handler, what the page renders from a state, and the properties the handlers keep. The
 * class that holds this state in fields is `ResourceHubPage.Page`.
 */
module ResourceHub {

  import opened Wrappers
  import opened Gateways
  import Strings

  /** A notification shown by `toast`; `destructive` is the red variant. */
  datatype Toast = Toast(title: string, description: string, destructive: bool)

  /** A file chosen in the upload form. */
  datatype PdfFile = PdfFile(name: string, mimeType: string, size: nat)

  /** The values of the upload form, as `handleSubmit` passes them. */
  datatype UploadForm = UploadForm(title: string, description: string, category: string, price: string)

  /** The state the browse tab is drawn from: `resources`, `loading` and `contractError`. */
  datatype Listing = Listing(resources: seq<Entry>, loading: bool, contractError: Option<string>)

  /** The wallet as the page sees it: `walletConnected` and the shown `ethBalance`. */
  datatype Wallet = Wallet(connected: bool, ethBalance: string)

  /**
   * The state of the upload form: `uploading`, `uploadProgress`, `uploadSuccess`,
   * `selectedFile`, and every value given to `setUploadProgress`, in order.
   */
  datatype UploadState = UploadState(
    uploading: bool,
    progress: nat,
    success: bool,
    selectedFile: Option<PdfFile>,
    progressLog: seq<nat>)

  /**
   * The page's state: its React state values, grouped by the part of the page that shows
   * them, and, as a record of what happened, the toasts shown and the outside calls made.
   */
  datatype HubState = HubState(
    listing: Listing,
    wallet: Wallet,
    upload: UploadState,
    purchasing: Option<string>,
    toasts: seq<Toast>,
    calls: seq<Call>)

  /** The state the page mounts with: no resources yet, and `loading` already true. */
  const Initial: HubState :=
    HubState(Listing([], true, None), Wallet(false, "0"), UploadState(false, 0, false, None, []), None, [], [])

  const NoWalletError: string := "No Web3 wallet detected. Please install MetaMask or another compatible wallet."
  const RetrieveFailedPrefix: string := "Failed to retrieve resources from the contract. "
  const ConnectFailedPrefix: string := "Failed to connect to the contract. "
  const ConnectFailedDefault: string := "Please check your wallet connection."

  /** `10 * 1024 * 1024`: the largest PDF accepted. */
  const MaxPdfSize: nat := 10 * 1024 * 1024

  /** The price used when the form's price is empty. */
  const DefaultPrice: string := "0.005"

  /** The state with one more toast shown. */
  function Say(s: HubState, t: Toast): HubState
  {
    s.(toasts := s.toasts + [t])
  }

  /** The state with one more outside call made. */
  function Do(s: HubState, c: Call): HubState
  {
    s.(calls := s.calls + [c])
  }

  /** `isOwned`: the answer of the check, or `false` when the check threw. */
  function IsOwned(answer: Ownership): (owned: bool)
    ensures owned <==> answer == Owned(true)
  {
    match answer
    case Owned(b) => b
    case OwnershipFailed => false
  }

  /** The `Promise.all` over the listing: each resource with the answer of its own ownership check. */
  function MergeOwnership(listing: seq<Resource>, ownership: nat -> Ownership): (entries: seq<Entry>)
    ensures |entries| == |listing|
    ensures forall i :: 0 <= i < |listing| ==>
              entries[i].resource == listing[i] && entries[i].isOwned == IsOwned(ownership(i))
  {
    seq(|listing|, i requires 0 <= i < |listing| => Entry(listing[i], IsOwned(ownership(i))))
  }

  /** One ownership check per listed resource, in listing order. */
  function OwnershipCalls(listing: seq<Resource>): (cs: seq<Call>)
    ensures |cs| == |listing|
    ensures forall i :: 0 <= i < |listing| ==> cs[i] == CheckOwnership(listing[i].id)
  {
    seq(|listing|, i requires 0 <= i < |listing| => CheckOwnership(listing[i].id))
  }

  /** The outer `catch` of `loadResources`. */
  function LoadCrashed(s: HubState, e: JsError): HubState
  {
    Say(s, Toast("Error", "Failed to load resources: " + OrElse(e.message, "Unknown error"), true))
      .(listing := Listing([], false, Some(ConnectFailedPrefix + OrElse(e.message, ConnectFailedDefault))))
  }

  /** `loadResources`, where `hasEthereum` says whether `window.ethereum` is present. */
  function Load(s: HubState, hasEthereum: bool, o: LoadOutcomes): HubState
  {
    var s0 := s.(listing := s.listing.(loading := true, contractError := None));
    if !hasEthereum then s0.(listing := s0.listing.(loading := false, contractError := Some(NoWalletError)))
    else
      var s1 := Do(s0, GetSigner);
      if o.signerError.Some? then LoadCrashed(s1, o.signerError.value)
      else LoadVerified(Do(s1, VerifyContract), o)
  }

  /** The load once the signer is known, from the call to `verifyContract` on. */
  function LoadVerified(s: HubState, o: LoadOutcomes): HubState
  {
    match o.verification
    case Failure(e) => LoadCrashed(s, e)
    case Success(v) =>
      if !v.codeExists || !v.functionsExist then s.(listing := s.listing.(loading := false, contractError := v.error))
      else LoadListing(Do(s, GetResources), o)
  }

  /** The load once the contract is verified, from the call to `getResources` on. */
  function LoadListing(s: HubState, o: LoadOutcomes): HubState
  {
    match o.listing
    case Failure(e) =>
      s.(listing := Listing([], false, Some(RetrieveFailedPrefix + e.message)))
    case Success(listing) =>
      if |listing| == 0 then s.(listing := s.listing.(resources := [], loading := false))
      else s.(calls := s.calls + OwnershipCalls(listing),
              listing := s.listing.(resources := MergeOwnership(listing, o.ownership), loading := false))
  }

  /**
   * `checkEthBalance`. `connectedAtRender` is the `walletConnected` of the render whose
   * closure runs; a state update made earlier in the same handler is not seen.
   */
  function CheckBalance(s: HubState, hasEthereum: bool, connectedAtRender: bool, b: BalanceOutcome): HubState
  {
    if !hasEthereum || !connectedAtRender then s
    else
      var s1 := Do(s, ListAccounts);
      match b
      case AccountsUnavailable => s1
      case NoAccounts => s1
      case BalanceUnavailable => Do(s1, GetBalance)
      case Balance(ether) => Do(s1, GetBalance).(wallet := s1.wallet.(ethBalance := ether))
  }

  /** `connectWallet`, run from a render in which the wallet was connected iff `s.wallet.connected`. */
  function ConnectWallet(s: HubState, hasEthereum: bool, o: ConnectOutcomes): HubState
  {
    if !hasEthereum then Say(s, Toast("Wallet Not Found", "Please install a Web3 wallet like MetaMask", true))
    else
      var s1 := Do(s, RequestAccounts);
      match o.accounts
      case AccountsFailed(e) =>
        Say(s1, Toast("Connection Failed", "Failed to connect: " + OrElse(e.message, e.json), true))
      case Accounts(_) =>
        var s2 := Load(s1.(wallet := s1.wallet.(connected := true)), hasEthereum, o.load);
        var s3 := CheckBalance(s2, hasEthereum, s.wallet.connected, o.balance);
        Say(s3, Toast("Wallet Connected", "Successfully connected to your wallet", false))
  }

  /**
   * `checkWalletConnection`, run once on mount. Its `checkEthBalance` belongs to the first
   * render, in which the wallet is not connected, so it does nothing and is left out here.
   */
  function Mount(s: HubState, hasEthereum: bool, accounts: AccountsOutcome, load: LoadOutcomes): HubState
  {
    if !hasEthereum then s
    else
      var s1 := Do(s, ConnectedAccounts);
      if accounts.Accounts? && accounts.count > 0 then Load(s1.(wallet := s1.wallet.(connected := true)), hasEthereum, load)
      else s1
  }

  /**
   * `handleAccountsChanged`, registered on mount; like `Mount`, its `checkEthBalance` sees the
   * first render and does nothing.
   */
  function AccountsChanged(s: HubState, hasEthereum: bool, count: nat, load: LoadOutcomes): HubState
  {
    if count > 0 then Load(s.(wallet := s.wallet.(connected := true)), hasEthereum, load)
    else s.(wallet := s.wallet.(connected := false), listing := s.listing.(resources := []))
  }

  /** `handleDisconnect`. */
  function Disconnect(s: HubState): HubState
  {
    s.(wallet := s.wallet.(connected := false))
  }

  datatype PdfCheck = NotPdf | TooLarge | Acceptable

  /** The checks of `handleFileChange`, the type before the size. */
  function CheckPdf(f: PdfFile): (r: PdfCheck)
    ensures r == Acceptable <==> f.mimeType == "application/pdf" && f.size <= MaxPdfSize
    ensures f.mimeType != "application/pdf" ==> r == NotPdf
  {
    if f.mimeType != "application/pdf" then NotPdf
    else if f.size > MaxPdfSize then TooLarge
    else Acceptable
  }

  /** `handleFileChange`, with the first chosen file (`None` when the list is empty). */
  function SelectFile(s: HubState, chosen: Option<PdfFile>): HubState
  {
    if chosen.None? then s
    else match CheckPdf(chosen.value)
      case NotPdf => Say(s, Toast("Invalid File", "Please select a PDF file", true))
      case TooLarge => Say(s, Toast("File Too Large", "Please select a file smaller than 10MB", true))
      case Acceptable => s.(upload := s.upload.(selectedFile := chosen))
  }

  /** `data.price || "0.005"`. */
  function EffectivePrice(price: string): (p: string)
    ensures price == "" ==> p == DefaultPrice
    ensures price != "" ==> p == price
  {
    OrElse(price, DefaultPrice)
  }

  /** The message `onSubmit` shows for an upload error, trying the cases in order. */
  function UploadErrorMessage(e: JsError): string
  {
    if !e.isError then "Failed to upload resource"
    else if Strings.Contains(e.message, "user rejected") then "You rejected the transaction"
    else if Strings.Contains(e.message, "insufficient funds") then "You don't have enough ETH to complete this transaction"
    else if Strings.Contains(e.message, "IPFS") then "Failed to upload to IPFS. Please try again."
    else e.message
  }

  /** The message `handlePurchase` shows for a purchase error with this `message`, trying the cases in order. */
  function PurchaseErrorMessage(message: string): string
  {
    if message == "" then "Failed to purchase the resource"
    else if Strings.Contains(message, "insufficient funds") then "You don't have enough ETH to make this purchase"
    else if Strings.Contains(message, "user rejected") then "You cancelled the transaction"
    else "Error: " + message
  }

  function UploadFailed(s: HubState, e: JsError): HubState
  {
    Say(s, Toast("Upload Failed", UploadErrorMessage(e), true))
  }

  /** `setUploadProgress(p)`. */
  function SetProgress(s: HubState, p: nat): HubState
  {
    s.(upload := s.upload.(progress := p, progressLog := s.upload.progressLog + [p]))
  }

  /** `refreshResources`: a load, then a balance check from the render `connectedAtRender` describes. */
  function Refresh(s: HubState, hasEthereum: bool, connectedAtRender: bool, o: RefreshOutcomes): HubState
  {
    CheckBalance(Load(s, hasEthereum, o.load), hasEthereum, connectedAtRender, o.balance)
  }

  /** The start of `onSubmit`'s `try`: uploading at 10%, the first toast, and the storage upload. */
  function StartUpload(s: HubState, file: PdfFile, form: UploadForm): HubState
  {
    var s1 := SetProgress(s.(upload := s.upload.(uploading := true)), 10);
    Do(Say(s1, Toast("Upload Started", "Uploading your file to IPFS...", false)),
       UploadFile(file.name, form.title, form.description, form.category, form.price))
  }

  /** The `try` block of `onSubmit`: storage upload, then ledger registration, then a refresh. */
  function Transfer(s: HubState, hasEthereum: bool, connectedAtRender: bool, file: PdfFile,
                    form: UploadForm, o: UploadOutcomes): HubState
  {
    var s1 := StartUpload(s, file, form);
    match o.storage
    case StorageThrew(e) => UploadFailed(s1, e)
    case StorageReturned(stored, storageError, ipfsHash) =>
      var s2 := SetProgress(s1, 50);
      if !stored then UploadFailed(s2, ThrownError(OrElse(storageError, "Failed to upload file to IPFS")))
      else
        var s3 := Do(Say(s2, Toast("File Uploaded", "Your file is now on IPFS. Registering on blockchain...", false)), GetSigner);
        Register(s3, hasEthereum, connectedAtRender, ipfsHash, form, o)
  }

  /** The ledger half of the upload, once the file is stored under `ipfsHash` and the signer is asked for. */
  function Register(s: HubState, hasEthereum: bool, connectedAtRender: bool, ipfsHash: string,
                    form: UploadForm, o: UploadOutcomes): HubState
  {
    if o.signerError.Some? then UploadFailed(s, o.signerError.value)
    else
      var s4 := Do(s, ParseEther(EffectivePrice(form.price)));
      match o.wei
      case Failure(e) => UploadFailed(s4, e)
      case Success(wei) =>
        Answered(Do(SetProgress(s4, 75), UploadResource(ipfsHash, wei, form.title, form.category, form.description)),
                 hasEthereum, connectedAtRender, o)
  }

  /** The upload once the ledger registration has been sent, by its answer. */
  function Answered(s: HubState, hasEthereum: bool, connectedAtRender: bool, o: UploadOutcomes): HubState
  {
    match o.ledger
    case LedgerThrew(e) => UploadFailed(s, e)
    case LedgerReturned(registered, ledgerError) =>
      if !registered then UploadFailed(s, ThrownError(OrElse(ledgerError, "Failed to upload to contract")))
      else Registered(s, hasEthereum, connectedAtRender, o.refresh)
  }

  /** The end of a successful upload: 100%, the success flag, no file, a refresh and the last toast. */
  function Registered(s: HubState, hasEthereum: bool, connectedAtRender: bool, o: RefreshOutcomes): HubState
  {
    var s6 := SetProgress(s, 100);
    var s7 := Refresh(s6.(upload := s6.upload.(success := true, selectedFile := None)), hasEthereum, connectedAtRender, o);
    Say(s7, Toast("Upload Successful", "Your resource has been uploaded and listed", false))
  }

  /**
   * Connecting first when the wallet is not connected. `connectWallet` catches every thrown value
   * a `JsError` represents, so the upload goes on either way.
   */
  function AfterConnect(s: HubState, hasEthereum: bool, o: UploadOutcomes): HubState
  {
    if s.wallet.connected then s
    else ConnectWallet(Say(s, Toast("Connecting Wallet", "Please approve the connection request in your wallet", false)),
                       hasEthereum, o.connect)
  }

  /** `onSubmit`; the `finally` clears `uploading`. */
  function Submit(s: HubState, hasEthereum: bool, form: UploadForm, o: UploadOutcomes): HubState
  {
    if s.upload.selectedFile.None? then Say(s, Toast("No File Selected", "Please select a PDF file to upload", true))
    else if !hasEthereum then Say(s, Toast("Wallet Not Found", "Please install MetaMask or another Web3 wallet", true))
    else
      var s1 := AfterConnect(s, hasEthereum, o);
      var s2 := Transfer(s1, hasEthereum, s.wallet.connected, s.upload.selectedFile.value, form, o);
      s2.(upload := s2.upload.(uploading := false))
  }

  /** The timer `onSubmit` starts in its `finally`, when it fires. */
  function UploadTimerElapsed(s: HubState): HubState
  {
    s.(upload := s.upload.(progress := 0, success := false))
  }

  /** `handlePurchase` right after `setPurchasing(resourceId)` and the first toast. */
  function PurchaseStarted(s: HubState, resourceId: string): HubState
  {
    Say(s.(purchasing := Some(resourceId)), Toast("Purchase Started", "Purchasing resource with ETH...", false))
  }

  function PurchaseFailed(s: HubState, message: string): HubState
  {
    Say(s, Toast("Purchase Failed", PurchaseErrorMessage(message), true))
  }

  /** The `try` block of `handlePurchase`, from the state `PurchaseStarted` gives. */
  function PurchaseAttempt(s: HubState, hasEthereum: bool, resourceId: string, price: string,
                           o: PurchaseOutcomes): HubState
  {
    var s1 := Do(s, GetSigner);
    if o.signerError.Some? then PurchaseFailed(s1, o.signerError.value.message)
    else
      var s2 := Do(s1, PurchaseResource(resourceId, price));
      match o.ledger
      case LedgerThrew(e) => PurchaseFailed(s2, e.message)
      case LedgerReturned(bought, ledgerError) =>
        if !bought then PurchaseFailed(s2, OrElse(ledgerError, "Failed to purchase resource"))
        else PurchaseBought(s2, hasEthereum, o)
  }

  /**
   * After a successful purchase: a reload and a balance check, which runs because the guard
   * passed in the render this closure belongs to, then the success toast.
   */
  function PurchaseBought(s: HubState, hasEthereum: bool, o: PurchaseOutcomes): HubState
  {
    var s3 := CheckBalance(Load(s, hasEthereum, o.load), hasEthereum, true, o.balance);
    Say(s3, Toast("Purchase Successful", "You have successfully purchased the resource", false))
  }

  /** `handlePurchase(resourceId, price)`; the `finally` empties the purchasing slot. */
  function Purchase(s: HubState, hasEthereum: bool, resourceId: string, price: string, o: PurchaseOutcomes): HubState
  {
    if !s.wallet.connected then Say(s, Toast("Wallet Not Connected", "Please connect your wallet to purchase resources", true))
    else PurchaseAttempt(PurchaseStarted(s, resourceId), hasEthereum, resourceId, price, o).(purchasing := None)
  }

  /** The button a resource card shows. */
  datatype CardAction = DownloadButton(ipfsHash: string) | PurchaseButton(disabled: bool, caption: string)

  function CardActionFor(e: Entry, purchasing: Option<string>): CardAction
  {
    if e.isOwned then DownloadButton(e.resource.ipfsHash)
    else if purchasing == Some(e.resource.id) then PurchaseButton(true, "Processing...")
    else PurchaseButton(false, "Purchase with ETH")
  }

  /** What the browse tab shows. */
  datatype BrowseView = Spinner | Unavailable | NoResources | Cards(actions: seq<CardAction>)

  /** The browse tab: the spinner first, then a truthy contract error, then the empty notice, then the cards. */
  function Browse(s: HubState): BrowseView
  {
    var l := s.listing;
    if l.loading then Spinner
    else if l.contractError.Some? && l.contractError.value != "" then Unavailable
    else if |l.resources| == 0 then NoResources
    else Cards(seq(|l.resources|, i requires 0 <= i < |l.resources| => CardActionFor(l.resources[i], s.purchasing)))
  }

  // ---------------------------------------------------------------------------------------
  // Loading

  /** The calls a load makes: to the signer, the verifier, the listing and the ownership checks. */
  predicate IsLoadCall(c: Call)
  {
    c.GetSigner? || c.VerifyContract? || c.GetResources? || c.CheckOwnership?
  }

  /**
   * Every load ends with the spinner off, only appends to the call and toast records, makes
   * only load calls, and changes nothing outside the listing.
   */
  lemma LoadFrame(s: HubState, hasEthereum: bool, o: LoadOutcomes)
    ensures var r := Load(s, hasEthereum, o);
            && !r.listing.loading
            && r.wallet == s.wallet && r.upload == s.upload && r.purchasing == s.purchasing
            && s.calls <= r.calls && s.toasts <= r.toasts
            && forall c :: c in r.calls[|s.calls|..] ==> IsLoadCall(c)
  {
    if hasEthereum && o.signerError.None? {
      var s2 := Do(Do(s.(listing := s.listing.(loading := true, contractError := None)), GetSigner), VerifyContract);
      VerifiedFrame(s2, o);
      var r := LoadVerified(s2, o);
      assert Load(s, hasEthereum, o) == r;
      assert r.calls[|s.calls|..] == [GetSigner, VerifyContract] + r.calls[|s2.calls|..];
    } else if hasEthereum {
      assert Load(s, hasEthereum, o).calls[|s.calls|..] == [GetSigner];
    }
  }

  lemma VerifiedFrame(s: HubState, o: LoadOutcomes)
    ensures var r := LoadVerified(s, o);
            && !r.listing.loading
            && r.wallet == s.wallet && r.upload == s.upload && r.purchasing == s.purchasing
            && s.calls <= r.calls && s.toasts <= r.toasts
            && forall c :: c in r.calls[|s.calls|..] ==> IsLoadCall(c)
  {
    if o.verification.Success? && o.verification.value.codeExists && o.verification.value.functionsExist {
      var s3 := Do(s, GetResources);
      ListingFrame(s3, o);
      var r := LoadListing(s3, o);
      assert LoadVerified(s, o) == r;
      assert r.calls[|s.calls|..] == [GetResources] + r.calls[|s3.calls|..];
    } else {
      assert LoadVerified(s, o).calls[|s.calls|..] == [];
    }
  }

  lemma ListingFrame(s: HubState, o: LoadOutcomes)
    ensures var r := LoadListing(s, o);
            && !r.listing.loading
            && r.wallet == s.wallet && r.upload == s.upload && r.purchasing == s.purchasing
            && s.calls <= r.calls && s.toasts == r.toasts
            && forall c :: c in r.calls[|s.calls|..] ==> c.CheckOwnership?
  {
    var r := LoadListing(s, o);
    if o.listing.Success? && |o.listing.value| > 0 {
      assert r.calls[|s.calls|..] == OwnershipCalls(o.listing.value);
    } else {
      assert r.calls[|s.calls|..] == [];
    }
  }

  /** Without a wallet object the load reports that and calls nothing; the listing stays as it was. */
  lemma LoadWithoutWallet(s: HubState, o: LoadOutcomes)
    ensures Load(s, false, o) == s.(listing := s.listing.(loading := false, contractError := Some(NoWalletError)))
  {
  }

  /**
   * Verification fails fast: when the contract or its functions are missing, the load keeps
   * the verifier's error, never lists or checks ownership, and leaves the listing untouched.
   */
  lemma VerificationFailsFast(s: HubState, o: LoadOutcomes)
    requires o.signerError.None? && o.verification.Success?
    requires !o.verification.value.codeExists || !o.verification.value.functionsExist
    ensures var r := Load(s, true, o);
            && r.listing == Listing(s.listing.resources, false, o.verification.value.error)
            && r.calls == s.calls + [GetSigner, VerifyContract]
            && r.toasts == s.toasts
  {
  }

  /** A failure to get the signer or to reach the verifier empties the listing and says so twice. */
  lemma ConnectionFailureClearsListing(s: HubState, o: LoadOutcomes)
    requires o.signerError.Some? || (o.signerError.None? && o.verification.Failure?)
    ensures var e := if o.signerError.Some? then o.signerError.value else o.verification.error;
            var r := Load(s, true, o);
            && r.listing == Listing([], false, Some(ConnectFailedPrefix + OrElse(e.message, ConnectFailedDefault)))
            && r.toasts == s.toasts + [Toast("Error", "Failed to load resources: " + OrElse(e.message, "Unknown error"), true)]
            && r.calls == s.calls + (if o.signerError.Some? then [GetSigner] else [GetSigner, VerifyContract])
  {
  }

  /**
   * Once verification passes: a listing that throws gives no resources and the retrieval
   * error; an empty listing gives no resources and no ownership checks; otherwise every
   * listed resource is checked once, in order, and the error stays cleared.
   */
  lemma ListingOutcome(s: HubState, o: LoadOutcomes)
    requires o.signerError.None? && o.verification.Success?
    requires o.verification.value.codeExists && o.verification.value.functionsExist
    ensures var r := Load(s, true, o);
            var prefix := s.calls + [GetSigner, VerifyContract, GetResources];
            && r.toasts == s.toasts
            && (o.listing.Failure? ==>
                  && r.listing == Listing([], false, Some(RetrieveFailedPrefix + o.listing.error.message))
                  && r.calls == prefix)
            && (o.listing.Success? ==>
                  && r.listing == Listing(MergeOwnership(o.listing.value, o.ownership), false, None)
                  && r.calls == prefix + OwnershipCalls(o.listing.value))
            && (o.listing.Success? && |o.listing.value| == 0 ==> r.listing.resources == [] && r.calls == prefix)
  {
    if o.listing.Success? && |o.listing.value| == 0 {
      assert OwnershipCalls(o.listing.value) == [];
      assert MergeOwnership(o.listing.value, o.ownership) == [];
    }
  }

  /**
   * A failed ownership check only affects its own entry: two runs whose answers differ only
   * for entry `j` agree on every other entry, and that entry is then merely not owned.
   */
  lemma OwnershipFailureIsolated(listing: seq<Resource>, answers: nat -> Ownership, other: nat -> Ownership, j: nat)
    requires j < |listing| && other(j) == OwnershipFailed
    requires forall i :: 0 <= i < |listing| && i != j ==> other(i) == answers(i)
    ensures var a := MergeOwnership(listing, answers);
            var b := MergeOwnership(listing, other);
            && |a| == |b| == |listing|
            && b[j] == Entry(listing[j], false)
            && forall i :: 0 <= i < |listing| && i != j ==> a[i] == b[i]
  {
  }

  /**
   * What the browse tab shows after a load: the unavailable notice for a non-empty error, and
   * for a non-empty verified listing one card per resource, in order, offering the download
   * exactly when that resource's own ownership check answered yes.
   */
  lemma BrowseAfterLoad(s: HubState, o: LoadOutcomes)
    ensures var r := Load(s, true, o);
            r.listing.contractError.Some? && r.listing.contractError.value != "" ==> Browse(r) == Unavailable
    ensures o.signerError.None? && o.verification.Success? && o.verification.value.codeExists
            && o.verification.value.functionsExist && o.listing.Success? && |o.listing.value| > 0 ==>
              var view := Browse(Load(s, true, o));
              var listing := o.listing.value;
              && view.Cards? && |view.actions| == |listing|
              && forall i :: 0 <= i < |listing| ==>
                   (view.actions[i].DownloadButton? <==> o.ownership(i) == Owned(true))
  {
    LoadFrame(s, true, o);
    if o.signerError.None? && o.verification.Success? && o.verification.value.codeExists
       && o.verification.value.functionsExist && o.listing.Success? && |o.listing.value| > 0 {
      ListingOutcome(s, o);
      var r := Load(s, true, o);
      var view := Browse(r);
      forall i | 0 <= i < |o.listing.value|
        ensures view.actions[i].DownloadButton? <==> o.ownership(i) == Owned(true)
      {
        assert r.listing.resources[i].isOwned == IsOwned(o.ownership(i));
        CardActionRule(r.listing.resources[i], r.purchasing);
      }
    }
  }

  /** Without a connected account on mount the page never loads, so the spinner stays. */
  lemma MountWithoutAccountsKeepsSpinner(hasEthereum: bool, accounts: AccountsOutcome, load: LoadOutcomes)
    requires !(accounts.Accounts? && accounts.count > 0)
    ensures Browse(Mount(Initial, hasEthereum, accounts, load)) == Spinner
  {
  }

  // ---------------------------------------------------------------------------------------
  // Wallet

  /** A balance check changes only the shown balance and appends only balance calls. */
  lemma BalanceFrame(s: HubState, hasEthereum: bool, atRender: bool, b: BalanceOutcome)
    ensures var r := CheckBalance(s, hasEthereum, atRender, b);
            && r == s.(calls := r.calls, wallet := s.wallet.(ethBalance := r.wallet.ethBalance))
            && s.calls <= r.calls
            && (!hasEthereum || !atRender ==> r == s)
            && forall c :: c in r.calls[|s.calls|..] ==> c == ListAccounts || c == GetBalance
  {
    var r := CheckBalance(s, hasEthereum, atRender, b);
    if hasEthereum && atRender {
      assert r.calls[|s.calls|..] == if b.BalanceUnavailable? || b.Balance? then [ListAccounts, GetBalance] else [ListAccounts];
    } else {
      assert r.calls[|s.calls|..] == [];
    }
  }

  /**
   * Connecting from a render without a connected wallet marks it connected and loads, but the
   * balance check belongs to that render and does not run: the shown balance is unchanged.
   */
  lemma ConnectFromDisconnectedSkipsBalance(s: HubState, o: ConnectOutcomes)
    requires !s.wallet.connected && o.accounts.Accounts?
    ensures var r := ConnectWallet(s, true, o);
            && r.wallet == Wallet(true, s.wallet.ethBalance)
            && |r.calls| > |s.calls| && r.calls[|s.calls|] == RequestAccounts
            && (forall c :: c in r.calls[|s.calls| + 1..] ==> IsLoadCall(c))
            && r.toasts[|r.toasts| - 1] == Toast("Wallet Connected", "Successfully connected to your wallet", false)
  {
    var s1 := Do(s, RequestAccounts).(wallet := s.wallet.(connected := true));
    LoadFrame(s1, true, o.load);
    var l := Load(s1, true, o.load);
    assert ConnectWallet(s, true, o) == Say(l, Toast("Wallet Connected", "Successfully connected to your wallet", false));
    assert l.calls[|s.calls| + 1..] == l.calls[|s1.calls|..];
  }

  /** A refused connection request changes nothing but the call record and one error toast. */
  lemma ConnectRefused(s: HubState, o: ConnectOutcomes)
    requires o.accounts.AccountsFailed?
    ensures var e := o.accounts.error;
            ConnectWallet(s, true, o)
            == s.(calls := s.calls + [RequestAccounts],
                  toasts := s.toasts + [Toast("Connection Failed", "Failed to connect: " + OrElse(e.message, e.json), true)])
  {
  }

  /** An empty account list disconnects and empties the listing, changing nothing else. */
  lemma EmptyAccountsDisconnect(s: HubState, hasEthereum: bool, load: LoadOutcomes)
    ensures var r := AccountsChanged(s, hasEthereum, 0, load);
            && !r.wallet.connected && r.listing.resources == []
            && r == s.(wallet := s.wallet.(connected := false), listing := s.listing.(resources := []))
  {
  }

  /** A non-empty account list connects and reloads; the balance is not refreshed. */
  lemma AccountsReload(s: HubState, hasEthereum: bool, count: nat, load: LoadOutcomes)
    requires count > 0
    ensures var r := AccountsChanged(s, hasEthereum, count, load);
            && r.wallet == Wallet(true, s.wallet.ethBalance) && !r.listing.loading
            && r.upload == s.upload && r.purchasing == s.purchasing
  {
    LoadFrame(s.(wallet := s.wallet.(connected := true)), hasEthereum, load);
  }

  // ---------------------------------------------------------------------------------------
  // Files and upload

  /** A file is selected exactly when it is a PDF of at most 10 MiB; a rejected one keeps the selection. */
  lemma SelectFileRule(s: HubState, f: PdfFile)
    ensures var r := SelectFile(s, Some(f));
            && (CheckPdf(f) == Acceptable ==> r == s.(upload := s.upload.(selectedFile := Some(f))))
            && (CheckPdf(f) != Acceptable ==> r == s.(toasts := r.toasts) && |r.toasts| == |s.toasts| + 1)
  {
  }

  /** Without a selected file, or without a wallet object, the upload stops before any call. */
  lemma SubmitGuards(s: HubState, hasEthereum: bool, form: UploadForm, o: UploadOutcomes)
    requires s.upload.selectedFile.None? || !hasEthereum
    ensures var r := Submit(s, hasEthereum, form, o);
            && r == s.(toasts := r.toasts)
            && |r.toasts| == |s.toasts| + 1
  {
  }

  /** The values the upload sets the progress bar to, in order. */
  const ProgressSteps: seq<nat> := [10, 50, 75, 100]

  /** A refresh only appends to the records, ends with the spinner off, and keeps the upload state and purchasing slot. */
  lemma RefreshFrame(s: HubState, hasEthereum: bool, atRender: bool, o: RefreshOutcomes)
    ensures var r := Refresh(s, hasEthereum, atRender, o);
            && s.calls <= r.calls && s.toasts <= r.toasts && !r.listing.loading
            && r.upload == s.upload && r.purchasing == s.purchasing && r.wallet.connected == s.wallet.connected
  {
    var l := Load(s, hasEthereum, o.load);
    LoadFrame(s, hasEthereum, o.load);
    BalanceFrame(l, hasEthereum, atRender, o.balance);
  }

  /** The end of a successful upload: 100% after the earlier steps, the success flag, and no file. */
  lemma RegisteredFrame(s: HubState, hasEthereum: bool, atRender: bool, o: RefreshOutcomes)
    ensures var r := Registered(s, hasEthereum, atRender, o);
            && s.calls <= r.calls
            && r.upload == s.upload.(progress := 100, progressLog := s.upload.progressLog + [100],
                                     success := true, selectedFile := None)
  {
    var s6 := SetProgress(s, 100);
    RefreshFrame(s6.(upload := s6.upload.(success := true, selectedFile := None)), hasEthereum, atRender, o);
  }

  /**
   * The ledger half: the price conversion and the registration are the next two calls, and
   * the bar reaches 75 once the price is converted and 100 once the registration succeeds.
   */
  lemma RegisterSteps(s: HubState, hasEthereum: bool, atRender: bool, ipfsHash: string, form: UploadForm, o: UploadOutcomes)
    ensures var r := Register(s, hasEthereum, atRender, ipfsHash, form, o);
            var n := |s.calls|;
            var converted := o.signerError.None? && o.wei.Success?;
            var registered := converted && o.ledger.LedgerReturned? && o.ledger.success;
            && s.calls <= r.calls && r.upload.uploading == s.upload.uploading
            && (o.signerError.None? ==> |r.calls| > n && r.calls[n] == ParseEther(EffectivePrice(form.price)))
            && (!converted ==> r.upload == s.upload)
            && (converted ==>
                  && |r.calls| >= n + 2
                  && r.calls[n + 1] == UploadResource(ipfsHash, o.wei.value, form.title, form.category, form.description))
            && (converted && !registered ==> r.upload == s.upload.(progress := 75, progressLog := s.upload.progressLog + [75]))
            && (registered ==>
                  r.upload == s.upload.(progress := 100, progressLog := s.upload.progressLog + [75, 100],
                                        success := true, selectedFile := None))
  {
    if o.signerError.None? && o.wei.Success? {
      var s4 := Do(s, ParseEther(EffectivePrice(form.price)));
      var s5 := Do(SetProgress(s4, 75), UploadResource(ipfsHash, o.wei.value, form.title, form.category, form.description));
      assert Register(s, hasEthereum, atRender, ipfsHash, form, o) == Answered(s5, hasEthereum, atRender, o);
      AnsweredSteps(s5, hasEthereum, atRender, o);
      assert s.upload.progressLog + [75] + [100] == s.upload.progressLog + [75, 100];
    }
  }

  /** The ledger's answer only appends calls; a success brings the bar to 100, sets the flag and clears the file. */
  lemma AnsweredSteps(s: HubState, hasEthereum: bool, atRender: bool, o: UploadOutcomes)
    ensures var r := Answered(s, hasEthereum, atRender, o);
            && s.calls <= r.calls
            && (o.ledger.LedgerReturned? && o.ledger.success ==>
                  r.upload == s.upload.(progress := 100, progressLog := s.upload.progressLog + [100],
                                        success := true, selectedFile := None))
            && (!(o.ledger.LedgerReturned? && o.ledger.success) ==> r.upload == s.upload)
  {
    if o.ledger.LedgerReturned? && o.ledger.success {
      RegisteredFrame(s, hasEthereum, atRender, o.refresh);
    }
  }

  /** With a successful storage upload, the transfer continues with the ledger half from this state. */
  lemma TransferStored(s: HubState, hasEthereum: bool, atRender: bool, file: PdfFile, form: UploadForm, o: UploadOutcomes)
    requires o.storage.StorageReturned? && o.storage.success
    ensures var s3 := Do(Say(SetProgress(StartUpload(s, file, form), 50),
                             Toast("File Uploaded", "Your file is now on IPFS. Registering on blockchain...", false)), GetSigner);
            && Transfer(s, hasEthereum, atRender, file, form, o) == Register(s3, hasEthereum, atRender, o.storage.ipfsHash, form, o)
            && s3.calls == s.calls + [UploadFile(file.name, form.title, form.description, form.category, form.price), GetSigner]
            && s3.upload == s.upload.(uploading := true, progress := 50, progressLog := s.upload.progressLog + [10, 50])
  {
  }

  /**
   * The calls of an upload: the storage upload comes first, and the ledger is reached only
   * after it reports success, starting with the signer.
   */
  lemma UploadCalls(s: HubState, hasEthereum: bool, atRender: bool, file: PdfFile, form: UploadForm, o: UploadOutcomes)
    ensures var r := Transfer(s, hasEthereum, atRender, file, form, o);
            var n := |s.calls|;
            var stored := o.storage.StorageReturned? && o.storage.success;
            && s.calls <= r.calls && |r.calls| > n
            && r.calls[n] == UploadFile(file.name, form.title, form.description, form.category, form.price)
            && (!stored ==> r.calls == s.calls + [UploadFile(file.name, form.title, form.description, form.category, form.price)])
            && (stored ==> |r.calls| >= n + 2 && r.calls[n + 1] == GetSigner)
  {
    if o.storage.StorageReturned? && o.storage.success {
      TransferStored(s, hasEthereum, atRender, file, form, o);
      var s3 := Do(Say(SetProgress(StartUpload(s, file, form), 50),
                       Toast("File Uploaded", "Your file is now on IPFS. Registering on blockchain...", false)), GetSigner);
      RegisterSteps(s3, hasEthereum, atRender, o.storage.ipfsHash, form, o);
    }
  }

  /**
   * The progress of an upload: the bar runs through a prefix of 10, 50, 75, 100 that is
   * complete exactly when the registration succeeds, and only then are the success flag set
   * and the file cleared; `uploading` stays on until the `finally`.
   */
  lemma UploadProgress(s: HubState, hasEthereum: bool, atRender: bool, file: PdfFile, form: UploadForm, o: UploadOutcomes)
    ensures var r := Transfer(s, hasEthereum, atRender, file, form, o);
            var stored := o.storage.StorageReturned? && o.storage.success;
            var registered := stored && o.signerError.None? && o.wei.Success?
                              && o.ledger.LedgerReturned? && o.ledger.success;
            && (exists k :: 1 <= k <= 4 && r.upload.progressLog == s.upload.progressLog + ProgressSteps[..k])
            && (r.upload.progressLog == s.upload.progressLog + ProgressSteps <==> registered)
            && (registered ==> r.upload.success && r.upload.progress == 100 && r.upload.selectedFile.None?)
            && (!registered ==> r.upload.success == s.upload.success && r.upload.selectedFile == s.upload.selectedFile)
            && r.upload.uploading
  {
    var log := s.upload.progressLog;
    if o.storage.StorageReturned? && o.storage.success {
      TransferStored(s, hasEthereum, atRender, file, form, o);
      var s3 := Do(Say(SetProgress(StartUpload(s, file, form), 50),
                       Toast("File Uploaded", "Your file is now on IPFS. Registering on blockchain...", false)), GetSigner);
      RegisterSteps(s3, hasEthereum, atRender, o.storage.ipfsHash, form, o);
      StoredProgress(log, s3.upload, Register(s3, hasEthereum, atRender, o.storage.ipfsHash, form, o).upload, o);
    } else {
      TransferUnstored(s, hasEthereum, atRender, file, form, o);
      assert ProgressSteps[..1] == [10] && ProgressSteps[..2] == [10, 50];
      assert |log + ProgressSteps[..2]| < |log + ProgressSteps|;
    }
  }

  /** An upload that storage does not accept ends at 10 or 50, with the flag and the file untouched. */
  lemma TransferUnstored(s: HubState, hasEthereum: bool, atRender: bool, file: PdfFile, form: UploadForm, o: UploadOutcomes)
    requires !(o.storage.StorageReturned? && o.storage.success)
    ensures Transfer(s, hasEthereum, atRender, file, form, o).upload
            == if o.storage.StorageThrew?
               then s.upload.(uploading := true, progress := 10, progressLog := s.upload.progressLog + [10])
               else s.upload.(uploading := true, progress := 50, progressLog := s.upload.progressLog + [10, 50])
  {
    assert s.upload.progressLog + [10] + [50] == s.upload.progressLog + [10, 50];
  }

  /** The progress log of an upload that got past storage, tied to the ledger's outcome. */
  lemma StoredProgress(log: seq<nat>, before: UploadState, after: UploadState, o: UploadOutcomes)
    requires before.progressLog == log + [10, 50]
    requires o.signerError.None? && o.wei.Success? && o.ledger.LedgerReturned? && o.ledger.success ==>
               after.progressLog == before.progressLog + [75, 100]
    requires o.signerError.None? && o.wei.Success? && !(o.ledger.LedgerReturned? && o.ledger.success) ==>
               after.progressLog == before.progressLog + [75]
    requires !(o.signerError.None? && o.wei.Success?) ==> after.progressLog == before.progressLog
    ensures exists k :: 2 <= k <= 4 && after.progressLog == log + ProgressSteps[..k]
    ensures after.progressLog == log + ProgressSteps
            <==> o.signerError.None? && o.wei.Success? && o.ledger.LedgerReturned? && o.ledger.success
  {
    assert ProgressSteps[..2] == [10, 50] && ProgressSteps[..3] == [10, 50, 75] && ProgressSteps[..4] == ProgressSteps;
    assert log + [10, 50] + [75] == log + ProgressSteps[..3];
    assert log + [10, 50] + [75, 100] == log + ProgressSteps;
    assert |log + [10, 50]| < |log + ProgressSteps|;
    assert |log + ProgressSteps[..3]| < |log + ProgressSteps|;
  }

  /** Once both guards pass, the upload always ends with `uploading` false; before that it is untouched. */
  lemma SubmitEndsIdle(s: HubState, hasEthereum: bool, form: UploadForm, o: UploadOutcomes)
    ensures s.upload.selectedFile.Some? && hasEthereum ==> !Submit(s, hasEthereum, form, o).upload.uploading
    ensures s.upload.selectedFile.None? || !hasEthereum ==> Submit(s, hasEthereum, form, o).upload == s.upload
  {
  }

  /** The price given to the conversion is the one entered, or 0.005 when the field is empty. */
  lemma UploadPrice(s: HubState, hasEthereum: bool, form: UploadForm, o: UploadOutcomes)
    requires s.upload.selectedFile.Some? && hasEthereum
    requires o.storage.StorageReturned? && o.storage.success && o.signerError.None?
    ensures var c := AfterConnect(s, hasEthereum, o);
            var r := Submit(s, hasEthereum, form, o);
            |r.calls| > |c.calls| + 2
            && r.calls[|c.calls| + 2] == ParseEther(if form.price == "" then "0.005" else form.price)
  {
    var c := AfterConnect(s, hasEthereum, o);
    var file := s.upload.selectedFile.value;
    TransferStored(c, hasEthereum, s.wallet.connected, file, form, o);
    var s3 := Do(Say(SetProgress(StartUpload(c, file, form), 50),
                     Toast("File Uploaded", "Your file is now on IPFS. Registering on blockchain...", false)), GetSigner);
    RegisterSteps(s3, hasEthereum, s.wallet.connected, o.storage.ipfsHash, form, o);
  }

  // ---------------------------------------------------------------------------------------
  // Purchase

  /** Without a connected wallet a purchase only shows a toast: no call, no purchasing slot. */
  lemma PurchaseNeedsWallet(s: HubState, hasEthereum: bool, resourceId: string, price: string, o: PurchaseOutcomes)
    requires !s.wallet.connected
    ensures Purchase(s, hasEthereum, resourceId, price, o)
            == s.(toasts := s.toasts + [Toast("Wallet Not Connected", "Please connect your wallet to purchase resources", true)])
  {
  }

  /** A successful purchase only appends to the records and keeps the purchasing slot. */
  lemma BoughtFrame(s: HubState, hasEthereum: bool, o: PurchaseOutcomes)
    ensures var r := PurchaseBought(s, hasEthereum, o);
            s.calls <= r.calls && r.purchasing == s.purchasing && !r.listing.loading
  {
    var l := Load(s, hasEthereum, o.load);
    LoadFrame(s, hasEthereum, o.load);
    BalanceFrame(l, hasEthereum, true, o.balance);
  }

  /**
   * The single purchasing slot: while the purchase runs it holds the resource's id, so that
   * resource's card shows a disabled "Processing..." button; afterwards it is empty on every path.
   */
  lemma PurchasingSlot(s: HubState, hasEthereum: bool, resource: Resource, o: PurchaseOutcomes)
    requires s.wallet.connected
    ensures var during := PurchaseStarted(s, resource.id);
            && during.purchasing == Some(resource.id)
            && CardActionFor(Entry(resource, false), during.purchasing) == PurchaseButton(true, "Processing...")
            && Purchase(s, hasEthereum, resource.id, resource.price, o).purchasing.None?
  {
  }

  /** After the signer, the ledger purchase is the next call, with the listed id and price. */
  lemma PurchaseCallsLedger(s: HubState, hasEthereum: bool, resourceId: string, price: string, o: PurchaseOutcomes)
    requires s.wallet.connected && o.signerError.None?
    ensures var r := Purchase(s, hasEthereum, resourceId, price, o);
            var n := |s.calls|;
            |r.calls| >= n + 2 && r.calls[n] == GetSigner && r.calls[n + 1] == PurchaseResource(resourceId, price)
  {
    var s2 := Do(Do(PurchaseStarted(s, resourceId), GetSigner), PurchaseResource(resourceId, price));
    assert s2.calls == s.calls + [GetSigner, PurchaseResource(resourceId, price)];
    var a := PurchaseAttempt(PurchaseStarted(s, resourceId), hasEthereum, resourceId, price, o);
    assert Purchase(s, hasEthereum, resourceId, price, o).calls == a.calls;
    if o.ledger.LedgerReturned? && o.ledger.success {
      assert a == PurchaseBought(s2, hasEthereum, o);
      BoughtFrame(s2, hasEthereum, o);
    } else {
      assert a.calls == s2.calls;
    }
  }

  /** An owned resource offers the download; any other offers the purchase, disabled only while it is the one being bought. */
  lemma CardActionRule(e: Entry, purchasing: Option<string>)
    ensures CardActionFor(e, purchasing).DownloadButton? <==> e.isOwned
    ensures !e.isOwned ==> (CardActionFor(e, purchasing).disabled <==> purchasing == Some(e.resource.id))
  {
  }

  // ---------------------------------------------------------------------------------------
  // Error messages

  /**
   * The upload messages in their order: not an `Error` first, then 'user rejected', then
   * 'insufficient funds', then 'IPFS', else the message itself.
   */
  lemma UploadErrorPrecedence(e: JsError)
    ensures var m := e.message;
            && (!e.isError ==> UploadErrorMessage(e) == "Failed to upload resource")
            && (e.isError && Strings.Contains(m, "user rejected") ==>
                  UploadErrorMessage(e) == "You rejected the transaction")
            && (e.isError && !Strings.Contains(m, "user rejected") && Strings.Contains(m, "insufficient funds") ==>
                  UploadErrorMessage(e) == "You don't have enough ETH to complete this transaction")
            && (e.isError && !Strings.Contains(m, "user rejected") && !Strings.Contains(m, "insufficient funds") ==>
                  UploadErrorMessage(e) == if Strings.Contains(m, "IPFS") then "Failed to upload to IPFS. Please try again." else m)
  {
  }

  /**
   * The purchase messages in their order: no message first, then 'insufficient funds', then
   * 'user rejected', else the message behind "Error: ".
   */
  lemma PurchaseErrorPrecedence(message: string)
    ensures message == "" ==> PurchaseErrorMessage(message) == "Failed to purchase the resource"
    ensures message != "" && Strings.Contains(message, "insufficient funds") ==>
              PurchaseErrorMessage(message) == "You don't have enough ETH to make this purchase"
    ensures message != "" && !Strings.Contains(message, "insufficient funds") && Strings.Contains(message, "user rejected") ==>
              PurchaseErrorMessage(message) == "You cancelled the transaction"
    ensures message != "" && !Strings.Contains(message, "insufficient funds") && !Strings.Contains(message, "user rejected") ==>
              PurchaseErrorMessage(message) == "Error: " + message
  {
  }

  /** The two handlers order the tests differently: a message with both phrases reads differently. */
  lemma MessageOrdersDiffer()
    ensures var m := "user rejected: insufficient funds";
            && UploadErrorMessage(ThrownError(m)) == "You rejected the transaction"
            && PurchaseErrorMessage(m) == "You don't have enough ETH to make this purchase"
  {
    var m := "user rejected: insufficient funds";
    assert m[0..13] == "user rejected";
    Strings.OccurrenceContained(m, "user rejected", 0);
    assert m[15..33] == "insufficient funds";
    Strings.OccurrenceContained(m, "insufficient funds", 15);
  }
}
