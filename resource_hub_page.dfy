/**
 * The resource hub page as an object: its React state values are fields that the handlers
 * update step by step, as the page's own code does, and each handler is proved to leave the
 * page in the state the matching transition of `ResourceHub` describes.
 */
module ResourceHubPage {

  import opened Wrappers
  import opened Gateways
  import opened ResourceHub

  class Page {
    /** Whether `window.ethereum` is present; it does not change while the page is open. */
    const hasEthereum: bool

    var resources: seq<Entry>
    var loading: bool
    var uploading: bool
    var uploadProgress: nat
    var selectedFile: Option<PdfFile>
    var walletConnected: bool
    var uploadSuccess: bool
    var purchasing: Option<string>
    var contractError: Option<string>
    var ethBalance: string
    /** The toasts shown, in order. */
    var toasts: seq<Toast>
    /** The calls made into the wallet, the ledger and storage helpers and ethers, in order. */
    ghost var calls: seq<Call>
    /** Every value the progress bar was set to, in order. */
    ghost var progressLog: seq<nat>

    /** The fields as one value. */
    ghost function State(): HubState
      reads this
    {
      HubState(Listing(resources, loading, contractError), Wallet(walletConnected, ethBalance),
               UploadState(uploading, uploadProgress, uploadSuccess, selectedFile, progressLog),
               purchasing, toasts, calls)
    }

    /** The page as it mounts, before its first effect runs. */
    constructor (hasEthereum: bool)
      ensures this.hasEthereum == hasEthereum && State() == Initial
    {
      this.hasEthereum := hasEthereum;
      resources, loading, contractError := [], true, None;
      walletConnected, ethBalance := false, "0";
      uploading, uploadProgress, uploadSuccess, selectedFile := false, 0, false, None;
      purchasing, toasts := None, [];
      calls, progressLog := [], [];
    }

    /** `toast(...)`. */
    method Notify(title: string, description: string, destructive: bool)
      modifies this`toasts
      ensures toasts == old(toasts) + [Toast(title, description, destructive)]
    {
      toasts := toasts + [Toast(title, description, destructive)];
    }

    /** The outer `catch` of `loadResources` and its `finally`. */
    method LoadFailed(e: JsError)
      modifies this`contractError, this`toasts, this`resources, this`loading
      ensures State() == LoadCrashed(old(State()), e)
    {
      contractError := Some(ConnectFailedPrefix + OrElse(e.message, ConnectFailedDefault));
      Notify("Error", "Failed to load resources: " + OrElse(e.message, "Unknown error"), true);
      resources := [];
      loading := false;
    }

    /** `loadResources`. */
    method LoadResources(o: LoadOutcomes)
      modifies this
      ensures State() == Load(old(State()), hasEthereum, o)
    {
      loading := true;
      contractError := None;
      if !hasEthereum {
        contractError := Some(NoWalletError);
        loading := false;
        return;
      }
      calls := calls + [GetSigner];
      if o.signerError.Some? {
        LoadFailed(o.signerError.value);
        return;
      }
      calls := calls + [VerifyContract];
      if o.verification.Failure? {
        LoadFailed(o.verification.error);
        return;
      }
      var v := o.verification.value;
      if !v.codeExists || !v.functionsExist {
        contractError := v.error;
        loading := false;
        return;
      }
      calls := calls + [GetResources];
      match o.listing {
        case Failure(e) =>
          contractError := Some(RetrieveFailedPrefix + e.message);
          resources := [];
        case Success(listing) =>
          if |listing| == 0 {
            resources := [];
          } else {
            var entries, checks := CheckOwnerships(listing, o.ownership);
            calls := calls + checks;
            resources := entries;
          }
      }
      loading := false;
    }

    /**
     * The `Promise.all` over the listing: one ownership check per resource, started in
     * listing order, and each resource paired with its own answer.
     */
    static method CheckOwnerships(listing: seq<Resource>, ownership: nat -> Ownership)
      returns (entries: seq<Entry>, ghost checks: seq<Call>)
      ensures entries == MergeOwnership(listing, ownership)
      ensures checks == OwnershipCalls(listing)
    {
      entries, checks := [], [];
      for i := 0 to |listing|
        invariant |entries| == i && |checks| == i
        invariant forall k :: 0 <= k < i ==> entries[k] == Entry(listing[k], IsOwned(ownership(k)))
        invariant forall k :: 0 <= k < i ==> checks[k] == CheckOwnership(listing[k].id)
      {
        checks := checks + [CheckOwnership(listing[i].id)];
        var isOwned := match ownership(i) case Owned(b) => b case OwnershipFailed => false;
        entries := entries + [Entry(listing[i], isOwned)];
      }
    }

    /** `checkEthBalance`, from the render in which `walletConnected` was `connectedAtRender`. */
    method CheckEthBalance(connectedAtRender: bool, b: BalanceOutcome)
      modifies this`calls, this`ethBalance
      ensures State() == CheckBalance(old(State()), hasEthereum, connectedAtRender, b)
    {
      if hasEthereum && connectedAtRender {
        calls := calls + [ListAccounts];
        if b.BalanceUnavailable? || b.Balance? {
          calls := calls + [GetBalance];
          if b.Balance? {
            ethBalance := b.ether;
          }
        }
      }
    }

    /** `connectWallet`; its `checkEthBalance` sees the `walletConnected` the handler started with. */
    method ConnectWallet(o: ConnectOutcomes)
      modifies this
      ensures State() == ResourceHub.ConnectWallet(old(State()), hasEthereum, o)
    {
      if !hasEthereum {
        Notify("Wallet Not Found", "Please install a Web3 wallet like MetaMask", true);
        return;
      }
      var connectedAtRender := walletConnected;
      calls := calls + [RequestAccounts];
      match o.accounts {
        case AccountsFailed(e) =>
          Notify("Connection Failed", "Failed to connect: " + OrElse(e.message, e.json), true);
        case Accounts(_) =>
          walletConnected := true;
          LoadResources(o.load);
          CheckEthBalance(connectedAtRender, o.balance);
          Notify("Wallet Connected", "Successfully connected to your wallet", false);
      }
    }

    /** `checkWalletConnection`, run by the mount effect. */
    method CheckWalletConnection(accounts: AccountsOutcome, load: LoadOutcomes)
      modifies this
      ensures State() == Mount(old(State()), hasEthereum, accounts, load)
    {
      if hasEthereum {
        calls := calls + [ConnectedAccounts];
        if accounts.Accounts? && accounts.count > 0 {
          walletConnected := true;
          LoadResources(load);
        }
      }
    }

    /** The wallet's `accountsChanged` event, with the number of accounts it reports. */
    method HandleAccountsChanged(count: nat, load: LoadOutcomes)
      modifies this
      ensures State() == AccountsChanged(old(State()), hasEthereum, count, load)
    {
      if count > 0 {
        walletConnected := true;
        LoadResources(load);
      } else {
        walletConnected := false;
        resources := [];
      }
    }

    /** The wallet's `disconnect` event. */
    method HandleDisconnect()
      modifies this`walletConnected
      ensures State() == Disconnect(old(State()))
    {
      walletConnected := false;
    }

    /** `handleFileChange`, with the first file of the input (`None` when it has none). */
    method HandleFileChange(chosen: Option<PdfFile>)
      modifies this`toasts, this`selectedFile
      ensures State() == SelectFile(old(State()), chosen)
    {
      if chosen.None? {
        return;
      }
      var file := chosen.value;
      if file.mimeType != "application/pdf" {
        Notify("Invalid File", "Please select a PDF file", true);
        return;
      }
      if file.size > 10 * 1024 * 1024 {
        Notify("File Too Large", "Please select a file smaller than 10MB", true);
        return;
      }
      selectedFile := Some(file);
    }

    /** `setUploadProgress(p)`. */
    method SetUploadProgress(p: nat)
      modifies this`uploadProgress, this`progressLog
      ensures State() == SetProgress(old(State()), p)
    {
      uploadProgress := p;
      progressLog := progressLog + [p];
    }

    /** `refreshResources`, from the render in which `walletConnected` was `connectedAtRender`. */
    method RefreshResources(connectedAtRender: bool, o: RefreshOutcomes)
      modifies this
      ensures State() == Refresh(old(State()), hasEthereum, connectedAtRender, o)
    {
      LoadResources(o.load);
      CheckEthBalance(connectedAtRender, o.balance);
    }

    /** The `catch` of `onSubmit`. */
    method UploadCaught(e: JsError)
      modifies this`toasts
      ensures State() == UploadFailed(old(State()), e)
    {
      Notify("Upload Failed", UploadErrorMessage(e), true);
    }

    /** The `try` block of `onSubmit`, with the file and the `walletConnected` of the render it started in. */
    method UploadSelected(connectedAtRender: bool, file: PdfFile, form: UploadForm, o: UploadOutcomes)
      modifies this
      ensures State() == Transfer(old(State()), hasEthereum, connectedAtRender, file, form, o)
    {
      uploading := true;
      SetUploadProgress(10);
      Notify("Upload Started", "Uploading your file to IPFS...", false);
      calls := calls + [UploadFile(file.name, form.title, form.description, form.category, form.price)];
      match o.storage {
        case StorageThrew(e) =>
          UploadCaught(e);
        case StorageReturned(stored, storageError, ipfsHash) =>
          SetUploadProgress(50);
          if !stored {
            UploadCaught(ThrownError(OrElse(storageError, "Failed to upload file to IPFS")));
          } else {
            Notify("File Uploaded", "Your file is now on IPFS. Registering on blockchain...", false);
            calls := calls + [GetSigner];
            RegisterUpload(connectedAtRender, ipfsHash, form, o);
          }
      }
    }

    /** The rest of the `try` block once the file is stored under `ipfsHash`. */
    method RegisterUpload(connectedAtRender: bool, ipfsHash: string, form: UploadForm, o: UploadOutcomes)
      modifies this
      ensures State() == Register(old(State()), hasEthereum, connectedAtRender, ipfsHash, form, o)
    {
      if o.signerError.Some? {
        UploadCaught(o.signerError.value);
        return;
      }
      calls := calls + [ParseEther(EffectivePrice(form.price))];
      match o.wei {
        case Failure(e) =>
          UploadCaught(e);
        case Success(priceInWei) =>
          SetUploadProgress(75);
          calls := calls + [UploadResource(ipfsHash, priceInWei, form.title, form.category, form.description)];
          LedgerAnswered(connectedAtRender, o);
      }
    }

    /** The rest of the `try` block once the registration is sent: its answer decides. */
    method LedgerAnswered(connectedAtRender: bool, o: UploadOutcomes)
      modifies this
      ensures State() == Answered(old(State()), hasEthereum, connectedAtRender, o)
    {
      match o.ledger {
        case LedgerThrew(e) =>
          UploadCaught(e);
        case LedgerReturned(registered, ledgerError) =>
          if !registered {
            UploadCaught(ThrownError(OrElse(ledgerError, "Failed to upload to contract")));
          } else {
            SetUploadProgress(100);
            uploadSuccess := true;
            selectedFile := None;
            RefreshResources(connectedAtRender, o.refresh);
            Notify("Upload Successful", "Your resource has been uploaded and listed", false);
          }
      }
    }

    /** `onSubmit` with the form's values. */
    method OnSubmit(form: UploadForm, o: UploadOutcomes)
      modifies this
      ensures State() == Submit(old(State()), hasEthereum, form, o)
    {
      if selectedFile.None? {
        Notify("No File Selected", "Please select a PDF file to upload", true);
        return;
      }
      if !hasEthereum {
        Notify("Wallet Not Found", "Please install MetaMask or another Web3 wallet", true);
        return;
      }
      var file := selectedFile.value;
      var connectedAtRender := walletConnected;
      if !walletConnected {
        Notify("Connecting Wallet", "Please approve the connection request in your wallet", false);
        ConnectWallet(o.connect);
      }
      UploadSelected(connectedAtRender, file, form, o);
      uploading := false;
    }

    /** The timer started in the `finally` of `onSubmit`, when it fires. */
    method UploadTimerElapsed()
      modifies this`uploadProgress, this`uploadSuccess
      ensures State() == ResourceHub.UploadTimerElapsed(old(State()))
    {
      uploadProgress := 0;
      uploadSuccess := false;
    }

    /** `handlePurchase(resourceId, price)`. */
    method HandlePurchase(resourceId: string, price: string, o: PurchaseOutcomes)
      modifies this
      ensures State() == Purchase(old(State()), hasEthereum, resourceId, price, o)
    {
      if !walletConnected {
        Notify("Wallet Not Connected", "Please connect your wallet to purchase resources", true);
        return;
      }
      purchasing := Some(resourceId);
      Notify("Purchase Started", "Purchasing resource with ETH...", false);
      TryPurchase(resourceId, price, o);
      purchasing := None;
    }

    /** The `try` and `catch` blocks of `handlePurchase`. */
    method TryPurchase(resourceId: string, price: string, o: PurchaseOutcomes)
      modifies this
      ensures State() == PurchaseAttempt(old(State()), hasEthereum, resourceId, price, o)
    {
      calls := calls + [GetSigner];
      var failure: Option<string> := None;
      if o.signerError.Some? {
        failure := Some(o.signerError.value.message);
      } else {
        calls := calls + [PurchaseResource(resourceId, price)];
        match o.ledger {
          case LedgerThrew(e) =>
            failure := Some(e.message);
          case LedgerReturned(bought, ledgerError) =>
            if !bought {
              failure := Some(OrElse(ledgerError, "Failed to purchase resource"));
            } else {
              LoadResources(o.load);
              CheckEthBalance(true, o.balance);
              Notify("Purchase Successful", "You have successfully purchased the resource", false);
            }
        }
      }
      if failure.Some? {
        Notify("Purchase Failed", PurchaseErrorMessage(failure.value), true);
      }
    }
  }
}
