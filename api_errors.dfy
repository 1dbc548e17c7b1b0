/** The error codes that ApiException carries on the modelled paths. */
module ApiErrors {

  /** Each constructor stands for the code string shown beside it. */
  datatype ErrorCode =
    | EmptyOrder           // "EMPTY_ORDER"
    | InvalidAmount        // "INVALID_AMOUNT"
    | OrderCreationFailed  // "ORDER_CREATION_FAILED"
    | OrderNotFound        // "ORDER_NOT_FOUND"
    | InvalidIdFormat      // "INVALID_ID_FORMAT"
    | NoUpdateFields       // "NO_UPDATE_FIELDS"
    | InvalidStatus        // "INVALID_STATUS"
    | NoValidUpdateFields  // "NO_VALID_UPDATE_FIELDS"
}
