/** The records the inventory contract stores and returns, the ledger's
    version log entries, the transaction context and the error kinds. */
module Records {

  datatype Option<+T> = None | Some(value: T)

  /** A point in time. Date-time parsing and the ledger clock are not
      modelled, so a time is only ever compared for equality. */
  type Time(==)

  /** A medicine as stored under its name. */
  datatype Medicine = Medicine(
    name: string,
    quantity: int,
    manufactureDate: Time,
    expiryDate: Time,
    owner: string)

  /** A cross-organisation request, stored under a composite key. */
  datatype MedicineRequest = MedicineRequest(
    medicineName: string,
    requester: string,
    details: string)

  /** Medicines and requests share one flat key space. */
  datatype StoredValue =
    | MedicineRecord(medicine: Medicine)
    | RequestRecord(request: MedicineRequest)

  /** What one version of a key holds: a written value or a deletion marker. */
  datatype Payload = Written(value: StoredValue) | Deleted

  /** One entry of a key's history log. */
  datatype Version = Version(txId: string, timestamp: Time, payload: Payload)

  /** One entry of the history the contract returns. */
  datatype MedicineHistory = MedicineHistory(txId: string, value: Medicine, timestamp: Time)

  /** What the host passes to every operation: the caller's MSP id and the
      identity and timestamp of the transaction being proposed. */
  datatype Context = Context(caller: string, txId: string, timestamp: Time)

  datatype DateField = ManufactureDate | ExpiryDate

  datatype Error =
    | AlreadyExists(name: string)
    | NotFound(name: string)
    | InvalidDate(field: DateField)
    | Unauthorized(organization: string)
    | UndecodableValue

  /** The outcome of an operation that returns nothing but an error. */
  datatype Outcome = Pass | Fail(error: Error)

  /** The outcome of an operation that returns a value or an error. */
  datatype Result<+T> = Ok(value: T) | Err(error: Error)
}
