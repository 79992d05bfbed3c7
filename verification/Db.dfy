/**
  The record the browser store keeps for each uploaded image
  (src/lib/db.ts). The receipt is kept as the untyped tree the server sent
  back, since the exporter reads it with its own keys.
 */
module Db {
  import opened Wrappers
  import opened JsonValue

  datatype Status = Processing | Done | Error

  datatype StoredReceiptItem = StoredReceiptItem(
    id: string,
    createdAt: int,
    fileName: string,
    mimeType: string,
    size: int,
    status: Status,
    error: Option<string>,
    receipt: Option<Json>)
}
