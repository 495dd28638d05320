/**
 * What the resource hub receives from code outside the page: the browser wallet, the ledger
 * helpers of `lib/contractUtils`, the storage helper of `lib/uploadUtils`, and ethers. None of
 * that code is modelled; each call's outcome is a value of one of these types, and each call
 * the page makes is recorded as a `Call`.
 */
module Gateways {

  import opened Wrappers

  /**
   * A thrown value that is an object: whether it is an `Error`, its `message` ("" when absent),
   * and its JSON text. `null`, `undefined` and values whose JSON text cannot be computed are not
   * represented.
   */
  datatype JsError = JsError(isError: bool, message: string, json: string)

  /** `new Error(message)`. */
  function ThrownError(message: string): (e: JsError)
    ensures e.isError && e.message == message
  {
    JsError(true, message, "{}")
  }

  /** `text || fallback` on strings: the empty string is falsy. */
  function OrElse(text: string, fallback: string): (r: string)
    ensures text != "" ==> r == text
    ensures text == "" ==> r == fallback
  {
    if text != "" then text else fallback
  }

  /** A listed resource as `getResources` returns it; `price` is the amount in wei, as text. */
  datatype Resource = Resource(
    id: string,
    title: string,
    description: string,
    category: string,
    price: string,
    ipfsHash: string)

  /** A resource with the ownership flag the page adds to it. */
  datatype Entry = Entry(resource: Resource, isOwned: bool)

  /** The answer of one `checkResourceOwnership` call. */
  datatype Ownership = Owned(owned: bool) | OwnershipFailed

  /** The answer of `verifyContract`: whether code exists at the address and whether the functions do. */
  datatype Verification = Verification(codeExists: bool, functionsExist: bool, error: Option<string>)

  /** The outcomes of the calls one `loadResources` makes, with the `i`-th ownership answer at `ownership(i)`. */
  datatype LoadOutcomes = LoadOutcomes(
    signerError: Option<JsError>,
    verification: Result<Verification, JsError>,
    listing: Result<seq<Resource>, JsError>,
    ownership: nat -> Ownership)

  /** The answer of `listAccounts` and `getBalance` in `checkEthBalance`. */
  datatype BalanceOutcome =
    | AccountsUnavailable
    | NoAccounts
    | BalanceUnavailable
    | Balance(ether: string)

  /** The answer of a wallet accounts request: it threw, or it returned this many accounts. */
  datatype AccountsOutcome = AccountsFailed(error: JsError) | Accounts(count: nat)

  /** Everything `connectWallet` waits on. */
  datatype ConnectOutcomes = ConnectOutcomes(accounts: AccountsOutcome, load: LoadOutcomes, balance: BalanceOutcome)

  /** Everything `refreshResources` waits on (the two-second pause is not modelled). */
  datatype RefreshOutcomes = RefreshOutcomes(load: LoadOutcomes, balance: BalanceOutcome)

  /** The answer of `uploadFile`. */
  datatype StorageReply =
    | StorageThrew(thrown: JsError)
    | StorageReturned(success: bool, error: string, ipfsHash: string)

  /** The answer of `uploadResource` or `purchaseResource`. */
  datatype LedgerReply =
    | LedgerThrew(thrown: JsError)
    | LedgerReturned(success: bool, error: string)

  /** Everything `onSubmit` waits on; `wei` is the answer of `ethers.parseEther`. */
  datatype UploadOutcomes = UploadOutcomes(
    connect: ConnectOutcomes,
    storage: StorageReply,
    signerError: Option<JsError>,
    wei: Result<string, JsError>,
    ledger: LedgerReply,
    refresh: RefreshOutcomes)

  /** Everything `handlePurchase` waits on. */
  datatype PurchaseOutcomes = PurchaseOutcomes(
    signerError: Option<JsError>,
    ledger: LedgerReply,
    load: LoadOutcomes,
    balance: BalanceOutcome)

  /** The calls the page makes into the wallet, the ledger helpers, the storage helper and ethers. */
  datatype Call =
    | ConnectedAccounts
    | RequestAccounts
    | GetSigner
    | VerifyContract
    | GetResources
    | CheckOwnership(resourceId: string)
    | ListAccounts
    | GetBalance
    | UploadFile(fileName: string, title: string, description: string, category: string, price: string)
    | ParseEther(amount: string)
    | UploadResource(ipfsHash: string, priceInWei: string, title: string, category: string, description: string)
    | PurchaseResource(resourceId: string, price: string)
}
