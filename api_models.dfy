/** Status enums and request shapes of the HTTP intake
    (backend/app/api/models/models.py). Both enums are string enums: the
    string is what the status column stores. */
module ApiModels {
  import opened Wrappers

  /** Longest string the `status` columns accept (`max_length=20`). */
  const StatusColumnLength: nat := 20

  datatype AddressCreationStatus = Pending | Completed | Failed
  {
    /** The enum member's string value. */
    function Value(): (s: string)
      ensures 0 < |s| <= StatusColumnLength
    {
      match this
      case Pending => "pending"
      case Completed => "completed"
      case Failed => "failed"
    }
  }

  datatype TransactionStatus = Pending | Started | Confirmed | Failed
  {
    /** The enum member's string value. */
    function Value(): (s: string)
      ensures 0 < |s| <= StatusColumnLength
    {
      match this
      case Pending => "pending"
      case Started => "started"
      case Confirmed => "confirmed"
      case Failed => "failed"
    }

    /** CONFIRMED and FAILED are the terminal states. */
    predicate IsTerminal() {
      Confirmed? || Failed?
    }
  }

  /** `AddressCreationStatus(s)`: the member whose value is `s`, or None where
      Python raises ValueError. */
  function ParseAddressCreationStatus(s: string): (r: Option<AddressCreationStatus>)
    ensures r.Some? ==> r.value.Value() == s
    ensures r.None? ==> forall st: AddressCreationStatus :: st.Value() != s
  {
    if s == "pending" then Some(AddressCreationStatus.Pending)
    else if s == "completed" then Some(AddressCreationStatus.Completed)
    else if s == "failed" then Some(AddressCreationStatus.Failed)
    else None
  }

  /** `TransactionStatus(s)`: the member whose value is `s`, or None where
      Python raises ValueError. */
  function ParseTransactionStatus(s: string): (r: Option<TransactionStatus>)
    ensures r.Some? ==> r.value.Value() == s
    ensures r.None? ==> forall st: TransactionStatus :: st.Value() != s
  {
    if s == "pending" then Some(TransactionStatus.Pending)
    else if s == "started" then Some(TransactionStatus.Started)
    else if s == "confirmed" then Some(TransactionStatus.Confirmed)
    else if s == "failed" then Some(TransactionStatus.Failed)
    else None
  }

  /** The stored strings identify the members: parsing a member's value gives
      the member back, so distinct members store distinct strings. */
  lemma StatusValuesRoundTrip(a: AddressCreationStatus, t: TransactionStatus)
    ensures ParseAddressCreationStatus(a.Value()) == Some(a)
    ensures ParseTransactionStatus(t.Value()) == Some(t)
  {
  }

  /** Body of a job request: the quantity is any integer, the bounds live only
      on the table model. */
  datatype CreateAddressJobRequest = CreateAddressJobRequest(quantity: int)

  /** Body of a transfer request. */
  datatype CreateTransactionRequest = CreateTransactionRequest(
    fromAddress: string, toAddress: string, asset: string, amount: real)
  {
    /** The field declarations: amount >= 0, addresses at most 42 characters,
        asset at most 20. */
    predicate Valid() {
      && 0.0 <= amount
      && |fromAddress| <= 42
      && |toAddress| <= 42
      && |asset| <= 20
    }
  }

  /** Body of a deposit validation request. */
  datatype ValidateTransactionRequest = ValidateTransactionRequest(transactionHash: string)
  {
    predicate Valid() {
      |transactionHash| <= 100
    }
  }

  /** Request parsing: the body is accepted exactly when every field meets its
      declaration, and then it carries the given fields. */
  function ParseCreateTransactionRequest(fromAddress: string, toAddress: string, asset: string, amount: real)
    : (r: Result<CreateTransactionRequest>)
    ensures r.Ok? <==> 0.0 <= amount && |fromAddress| <= 42 && |toAddress| <= 42 && |asset| <= 20
    ensures r.Ok? ==> r.value.Valid() && r.value == CreateTransactionRequest(fromAddress, toAddress, asset, amount)
    ensures r.Err? ==> r.error == RequestInvalid
  {
    var req := CreateTransactionRequest(fromAddress, toAddress, asset, amount);
    if req.Valid() then Ok(req) else Err(RequestInvalid)
  }

  function ParseValidateTransactionRequest(transactionHash: string): (r: Result<ValidateTransactionRequest>)
    ensures r.Ok? <==> |transactionHash| <= 100
    ensures r.Ok? ==> r.value.transactionHash == transactionHash
  {
    if |transactionHash| <= 100 then Ok(ValidateTransactionRequest(transactionHash)) else Err(RequestInvalid)
  }
}
