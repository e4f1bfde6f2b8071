/**
 * The shapes the monitor works on: the raw transaction envelope returned by the
 * node's `sui_getTransactionBlock` call (every key optional), and the flat
 * record that is written to the `transactions` table.
 */
module Envelope {
  import opened Wrappers

  /** An uninterpreted JSON value, carried through unchanged (event payloads, RPC results). */
  datatype Json =
    | JNull
    | JBool(b: bool)
    | JNumber(n: int)
    | JString(s: string)
    | JArray(items: seq<Json>)
    | JObject(fields: map<string, Json>)

  // ---------------------------------------------------------------------------
  // Raw envelope (input of the normaliser)
  // ---------------------------------------------------------------------------

  /** One entry of the envelope's `events` list. */
  datatype Event = Event(
    eventType: Option<string>,          // "type"
    sender: Option<string>,             // "sender"
    packageId: Option<string>,          // "packageId"
    transactionModule: Option<string>,  // "transactionModule"
    parsedJson: Option<Json>)           // "parsedJson"

  /**
   * One entry of a programmable transaction's `commands` list. Only entries
   * that are JSON objects are inspected; anything else is skipped.
   */
  datatype Command =
    | CommandObject(
        commandType: Option<string>,    // "type"
        package: Option<string>,        // "package"
        moduleName: Option<string>,     // "module"
        functionName: Option<string>)   // "function"
    | OtherCommand(raw: Json)

  /** `transaction.data.transaction`: the transaction kind and its commands. */
  datatype TxKind = TxKind(kind: Option<string>, commands: Option<seq<Command>>)

  /** `transaction.data`. */
  datatype TxData = TxData(sender: Option<string>, transaction: Option<TxKind>)

  /** `transaction`. */
  datatype Transaction = Transaction(data: Option<TxData>)

  /** `effects.status`. */
  datatype StatusInfo = StatusInfo(status: Option<string>)

  /** `effects.gasUsed`; the three costs arrive as integers. */
  datatype GasInfo = GasInfo(
    computationCost: Option<int>,
    storageCost: Option<int>,
    storageRebate: Option<int>)

  /** One entry of `effects.objectChanges`. */
  datatype ObjectChange = ObjectChange(changeType: Option<string>, objectId: Option<string>)

  /** One entry of the supplementary `effects.deleted` list. */
  datatype ObjectRef = ObjectRef(objectId: Option<string>)

  /** `effects`. */
  datatype Effects = Effects(
    status: Option<StatusInfo>,
    gasUsed: Option<GasInfo>,
    objectChanges: Option<seq<ObjectChange>>,
    deleted: Option<seq<ObjectRef>>)

  /** The whole envelope returned for one transaction digest. */
  datatype Envelope = Envelope(
    digest: Option<string>,
    transaction: Option<Transaction>,
    effects: Option<Effects>,
    events: Option<seq<Event>>,
    timestampMs: Option<int>,
    checkpoint: Option<int>)

  // ---------------------------------------------------------------------------
  // Canonical record (output of the normaliser, row of the table)
  // ---------------------------------------------------------------------------

  /**
   * When the transaction happened: the envelope's millisecond epoch time, or,
   * when the envelope has none, the reading of the ingestion clock.
   */
  datatype Timestamp = EpochMillis(ms: int) | IngestionTime(clock: int)

  /** One element of the record's `events` column. */
  datatype ProcessedEvent = ProcessedEvent(
    eventType: string,
    sender: string,
    packageId: string,
    transactionModule: string,
    data: Json)

  /** One row of the `transactions` table; `digest` is the primary key. */
  datatype Record = Record(
    digest: string,
    sender: string,
    timestamp: Timestamp,
    checkpoint: int,
    transactionType: string,
    status: string,
    packageId: string,
    functionName: string,
    totalGasUsed: int,
    createdObjects: seq<string>,
    deletedObjects: seq<string>,
    modifiedObjects: seq<string>,
    events: seq<ProcessedEvent>)

  // ---------------------------------------------------------------------------
  // Helpers for Python's string idioms
  // ---------------------------------------------------------------------------

  /** `d.get(key, '')` on a string-valued key. */
  function OrEmpty(o: Option<string>): string {
    o.GetOr("")
  }

  predicate IsUpper(c: char) {
    'A' <= c <= 'Z'
  }

  function LowerChar(c: char): char {
    if IsUpper(c) then (c as int + ('a' as int - 'A' as int)) as char else c
  }

  /**
   * `s.lower()` on ASCII letters: upper-case letters become their lower-case
   * counterparts and every other character is kept.
   */
  function AsciiLower(s: string): (r: string)
    ensures |r| == |s|
    ensures forall i :: 0 <= i < |r| ==> !IsUpper(r[i])
    ensures forall i :: 0 <= i < |s| && !IsUpper(s[i]) ==> r[i] == s[i]
    ensures forall i :: 0 <= i < |s| && IsUpper(s[i]) ==> r[i] as int == s[i] as int + 32
  {
    seq(|s|, i requires 0 <= i < |s| => LowerChar(s[i]))
  }
}
