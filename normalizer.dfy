/**
 * The transaction normaliser (`cleanse_transaction`): turns one raw envelope
 * into one flat `Record`.
 *
 * The specification is the function `Cleanse`, assembled from one small
 * function per step; `CleanseTransaction` is the step-by-step procedure of the
 * source (loops that append to lists and update `package_id` / `function_name`
 * in place, with a `break` after the first MoveCall) proved equal to it. The
 * lemmas state what the record means in terms of the envelope.
 */
module Normalizer {
  import opened Wrappers
  import opened Envelope

  // ---------------------------------------------------------------------------
  // Defaults for the envelope's optional sub-objects
  // ---------------------------------------------------------------------------

  /** `transaction.get('data', {})`, with `transaction` itself defaulting to `{}`. */
  function TxDataOf(env: Envelope): TxData {
    match env.transaction
    case None => TxData(None, None)
    case Some(t) => t.data.GetOr(TxData(None, None))
  }

  /** `tx_data.get('events', [])`. */
  function EventsOf(env: Envelope): seq<Event> {
    env.events.GetOr([])
  }

  /** `tx_data.get('effects', {})`. */
  function EffectsOf(env: Envelope): Effects {
    env.effects.GetOr(Effects(None, None, None, None))
  }

  // ---------------------------------------------------------------------------
  // Pass 1: events
  // ---------------------------------------------------------------------------

  /** One event of the envelope as it is kept in the record; missing keys become `''` / `{}`. */
  function ProcessEvent(e: Event): ProcessedEvent {
    ProcessedEvent(
      OrEmpty(e.eventType), OrEmpty(e.sender), OrEmpty(e.packageId),
      OrEmpty(e.transactionModule), e.parsedJson.GetOr(JObject(map[])))
  }

  /** The record's `events`: one processed event per raw event, in source order. */
  function ProcessEvents(events: seq<Event>): (r: seq<ProcessedEvent>)
    ensures |r| == |events|
    ensures forall i :: 0 <= i < |events| ==> r[i] == ProcessEvent(events[i])
  {
    if events == [] then [] else [ProcessEvent(events[0])] + ProcessEvents(events[1..])
  }

  /** The `packageId` of every event, `''` where absent. */
  function PackageIds(events: seq<Event>): seq<string> {
    seq(|events|, i requires 0 <= i < |events| => OrEmpty(events[i].packageId))
  }

  /** The `transactionModule` of every event, `''` where absent. */
  function Modules(events: seq<Event>): seq<string> {
    seq(|events|, i requires 0 <= i < |events| => OrEmpty(events[i].transactionModule))
  }

  /** Position `k` holds the first non-empty string of `s`. */
  predicate IsFirstNonEmptyAt(s: seq<string>, k: int) {
    0 <= k < |s| && s[k] != "" && forall j :: 0 <= j < k ==> s[j] == ""
  }

  /** The first non-empty string of `s`, or `''` when there is none. */
  function FirstNonEmpty(s: seq<string>): string {
    if s == [] then ""
    else if s[0] != "" then s[0]
    else FirstNonEmpty(s[1..])
  }

  /**
   * `FirstNonEmpty` is `''` exactly when every string is empty, and otherwise
   * the string at the first non-empty position: a value once found is never
   * replaced by a later one.
   */
  lemma {:induction false} FirstNonEmptySpec(s: seq<string>)
    ensures FirstNonEmpty(s) == "" <==> forall i :: 0 <= i < |s| ==> s[i] == ""
    ensures FirstNonEmpty(s) != "" ==> exists k :: IsFirstNonEmptyAt(s, k) && s[k] == FirstNonEmpty(s)
  {
    if s != [] {
      if s[0] != "" {
        assert IsFirstNonEmptyAt(s, 0);
      } else {
        FirstNonEmptySpec(s[1..]);
        assert forall i :: 1 <= i < |s| ==> s[i] == s[1..][i - 1];
        if FirstNonEmpty(s) != "" {
          var k :| IsFirstNonEmptyAt(s[1..], k) && s[1..][k] == FirstNonEmpty(s);
          assert IsFirstNonEmptyAt(s, k + 1);
        }
      }
    }
  }

  /** The first non-empty string is the one at the first non-empty position. */
  lemma FirstNonEmptyAt(s: seq<string>, k: int)
    requires IsFirstNonEmptyAt(s, k)
    ensures FirstNonEmpty(s) == s[k]
  {
    FirstNonEmptySpec(s);
    var k' :| IsFirstNonEmptyAt(s, k') && s[k'] == FirstNonEmpty(s);
    assert !(k' < k) && !(k < k');
  }

  /** Scanning one more string only matters while nothing non-empty was found. */
  lemma {:induction false} FirstNonEmptyAppend(s: seq<string>, x: string)
    ensures FirstNonEmpty(s + [x]) == if FirstNonEmpty(s) != "" then FirstNonEmpty(s) else x
  {
    if s != [] {
      assert (s + [x])[1..] == s[1..] + [x];
      FirstNonEmptyAppend(s[1..], x);
    }
  }

  /** Extending the scanned prefix of the events by one event extends both field lists by its fields. */
  lemma EventFieldsExtend(events: seq<Event>, i: nat)
    requires i < |events|
    ensures PackageIds(events[..i + 1]) == PackageIds(events[..i]) + [OrEmpty(events[i].packageId)]
    ensures Modules(events[..i + 1]) == Modules(events[..i]) + [OrEmpty(events[i].transactionModule)]
  {
  }

  // ---------------------------------------------------------------------------
  // Pass 2: the programmable transaction's commands
  // ---------------------------------------------------------------------------

  /** A command that is a JSON object whose `type` is `'MoveCall'`. */
  predicate IsMoveCall(c: Command) {
    c.CommandObject? && c.commandType == Some("MoveCall")
  }

  /** The position of the first MoveCall command, if any. */
  function FirstMoveCall(cmds: seq<Command>): (r: Option<nat>)
    ensures r.None? <==> forall j :: 0 <= j < |cmds| ==> !IsMoveCall(cmds[j])
    ensures r.Some? ==>
      r.value < |cmds| && IsMoveCall(cmds[r.value]) &&
      forall j :: 0 <= j < r.value ==> !IsMoveCall(cmds[j])
  {
    if cmds == [] then None
    else if IsMoveCall(cmds[0]) then Some(0)
    else
      match FirstMoveCall(cmds[1..])
      case None => None
      case Some(k) => Some(k + 1)
  }

  /** `module::function` of a MoveCall when both parts are non-empty, else `fallback`. */
  function MoveCallFunction(c: Command, fallback: string): string
    requires c.CommandObject?
  {
    var m, f := OrEmpty(c.moduleName), OrEmpty(c.functionName);
    if m != "" && f != "" then m + "::" + f else fallback
  }

  /** The record's `transaction_type`, `package_id` and `function` together. */
  datatype Origin = Origin(transactionType: string, packageId: string, functionName: string)

  /**
   * Pass 2 applied to what pass 1 found: the kind becomes the transaction type;
   * the first MoveCall is consulted only for a programmable transaction with a
   * command list and only while no package id has been found.
   */
  function ResolveOrigin(kind: Option<TxKind>, packageId: string, functionName: string): Origin {
    match kind
    case None => Origin("unknown", packageId, functionName)
    case Some(info) =>
      var txType := info.kind.GetOr("unknown");
      if packageId == "" && txType == "ProgrammableTransaction" && info.commands.Some? then
        match FirstMoveCall(info.commands.value)
        case None => Origin(txType, packageId, functionName)
        case Some(j) =>
          var c := info.commands.value[j];
          Origin(txType, OrEmpty(c.package), MoveCallFunction(c, functionName))
      else
        Origin(txType, packageId, functionName)
  }

  // ---------------------------------------------------------------------------
  // Status, gas, timestamp
  // ---------------------------------------------------------------------------

  /** `effects.get('status', {}).get('status', 'unknown')`. */
  function StatusOf(effects: Effects): string {
    match effects.status
    case None => "unknown"
    case Some(s) => s.status.GetOr("unknown")
  }

  /** Computation plus storage minus rebate, each `0` when absent; `0` without `gasUsed`; never clamped. */
  function TotalGas(gas: Option<GasInfo>): int {
    match gas
    case None => 0
    case Some(g) => g.computationCost.GetOr(0) + g.storageCost.GetOr(0) - g.storageRebate.GetOr(0)
  }

  /** A present, non-zero `timestampMs` is kept; otherwise the ingestion clock reading `now`. */
  function TimestampOf(timestampMs: Option<int>, now: int): Timestamp {
    if timestampMs.Some? && timestampMs.value != 0 then EpochMillis(timestampMs.value)
    else IngestionTime(now)
  }

  // ---------------------------------------------------------------------------
  // Object changes
  // ---------------------------------------------------------------------------

  datatype Bucket = Created | Deleted | Modified

  /**
   * The bucket an object change goes to: chosen by its lower-cased `type`;
   * none for an empty object id or any other type.
   */
  function Classify(c: ObjectChange): Option<Bucket> {
    var changeType := AsciiLower(c.changeType.GetOr(""));
    if OrEmpty(c.objectId) == "" then None
    else if changeType == "created" then Some(Created)
    else if changeType == "deleted" then Some(Deleted)
    else if changeType == "modified" then Some(Modified)
    else None
  }

  /** The object ids of the changes classified into `b`, in source order. */
  function BucketIds(changes: seq<ObjectChange>, b: Bucket): seq<string> {
    if changes == [] then []
    else
      var last := changes[|changes| - 1];
      BucketIds(changes[..|changes| - 1], b) + if Classify(last) == Some(b) then [OrEmpty(last.objectId)] else []
  }

  /** An id is in bucket `b` exactly when some change with that id is classified into `b`. */
  lemma {:induction false} BucketMembership(changes: seq<ObjectChange>, b: Bucket)
    ensures forall x :: x in BucketIds(changes, b) <==>
      exists j :: 0 <= j < |changes| && Classify(changes[j]) == Some(b) && OrEmpty(changes[j].objectId) == x
  {
    if changes != [] {
      var front, last := changes[..|changes| - 1], changes[|changes| - 1];
      BucketMembership(front, b);
      assert forall j :: 0 <= j < |front| ==> front[j] == changes[j];
      forall x | x in BucketIds(changes, b)
        ensures exists j :: 0 <= j < |changes| && Classify(changes[j]) == Some(b) && OrEmpty(changes[j].objectId) == x
      {
        if x !in BucketIds(front, b) {
          assert Classify(changes[|changes| - 1]) == Some(b) && OrEmpty(changes[|changes| - 1].objectId) == x;
        }
      }
    }
  }

  /**
   * The supplementary deletion list merged into `deleted`: each non-empty id
   * not yet present is appended, in first-seen order; what was there stays.
   */
  function MergeDeleted(deleted: seq<string>, refs: seq<ObjectRef>): (r: seq<string>)
    ensures |deleted| <= |r| && r[..|deleted|] == deleted
    decreases |refs|
  {
    if refs == [] then deleted
    else
      var id := OrEmpty(refs[0].objectId);
      MergeDeleted(if id != "" && id !in deleted then deleted + [id] else deleted, refs[1..])
  }

  /** Every non-empty id of the supplementary list ends up in the merged list. */
  lemma {:induction false} MergeDeletedCoversRefs(deleted: seq<string>, refs: seq<ObjectRef>)
    ensures forall j :: 0 <= j < |refs| && OrEmpty(refs[j].objectId) != "" ==>
      OrEmpty(refs[j].objectId) in MergeDeleted(deleted, refs)
    decreases |refs|
  {
    if refs != [] {
      var id := OrEmpty(refs[0].objectId);
      var next := if id != "" && id !in deleted then deleted + [id] else deleted;
      MergeDeletedCoversRefs(next, refs[1..]);
      var r := MergeDeleted(next, refs[1..]);
      assert r[..|next|] == next;
      assert id != "" ==> id in next;
      assert forall j :: 1 <= j < |refs| ==> refs[j] == refs[1..][j - 1];
    }
  }

  /** Each element of `r` past the first `n` is non-empty and does not occur earlier in `r`. */
  predicate AppendedAreNew(r: seq<string>, n: nat) {
    forall k :: n <= k < |r| ==> r[k] != "" && r[k] !in r[..k]
  }

  /** Each element of `r` past the first `n` is the object id of some entry of `refs`. */
  predicate AppendedFromRefs(r: seq<string>, n: nat, refs: seq<ObjectRef>) {
    forall k :: n <= k < |r| ==> exists j :: 0 <= j < |refs| && OrEmpty(refs[j].objectId) == r[k]
  }

  /**
   * Every appended id is non-empty and was not in the list before it: nothing
   * already present is appended again.
   */
  lemma {:induction false} MergeDeletedAppendsNew(deleted: seq<string>, refs: seq<ObjectRef>)
    ensures AppendedAreNew(MergeDeleted(deleted, refs), |deleted|)
    decreases |refs|
  {
    if refs != [] {
      var id := OrEmpty(refs[0].objectId);
      var next := if id != "" && id !in deleted then deleted + [id] else deleted;
      MergeDeletedAppendsNew(next, refs[1..]);
      var r := MergeDeleted(next, refs[1..]);
      assert r == MergeDeleted(deleted, refs);
      forall k | |deleted| <= k < |r|
        ensures r[k] != "" && r[k] !in r[..k]
      {
        if k < |next| {
          assert r[..k] == r[..|next|][..k] == deleted;
          assert r[k] == r[..|next|][k] == id;
        }
      }
    }
  }

  /** Every appended id is the id of some entry of the supplementary list. */
  lemma {:induction false} MergeDeletedAppendsFromRefs(deleted: seq<string>, refs: seq<ObjectRef>)
    ensures AppendedFromRefs(MergeDeleted(deleted, refs), |deleted|, refs)
    decreases |refs|
  {
    if refs != [] {
      var id := OrEmpty(refs[0].objectId);
      var next := if id != "" && id !in deleted then deleted + [id] else deleted;
      MergeDeletedAppendsFromRefs(next, refs[1..]);
      var r := MergeDeleted(next, refs[1..]);
      assert r == MergeDeleted(deleted, refs);
      forall k | |deleted| <= k < |r|
        ensures exists j :: 0 <= j < |refs| && OrEmpty(refs[j].objectId) == r[k]
      {
        if k < |next| {
          assert r[..|next|][k] == next[k] == id;
          assert OrEmpty(refs[0].objectId) == r[k];
        } else {
          var j :| 0 <= j < |refs[1..]| && OrEmpty(refs[1..][j].objectId) == r[k];
          assert OrEmpty(refs[j + 1].objectId) == r[k];
        }
      }
    }
  }

  // ---------------------------------------------------------------------------
  // The whole normalisation
  // ---------------------------------------------------------------------------

  /** The record `cleanse_transaction` returns for `env` when the clock reads `now`. */
  function Cleanse(env: Envelope, now: int): Record {
    var txData := TxDataOf(env);
    var events := EventsOf(env);
    var effects := EffectsOf(env);
    var changes := effects.objectChanges.GetOr([]);
    var origin := ResolveOrigin(txData.transaction, FirstNonEmpty(PackageIds(events)), FirstNonEmpty(Modules(events)));
    Record(
      digest := OrEmpty(env.digest),
      sender := OrEmpty(txData.sender),
      timestamp := TimestampOf(env.timestampMs, now),
      checkpoint := env.checkpoint.GetOr(0),
      transactionType := origin.transactionType,
      status := StatusOf(effects),
      packageId := origin.packageId,
      functionName := origin.functionName,
      totalGasUsed := TotalGas(effects.gasUsed),
      createdObjects := BucketIds(changes, Created),
      deletedObjects := MergeDeleted(BucketIds(changes, Deleted), effects.deleted.GetOr([])),
      modifiedObjects := BucketIds(changes, Modified),
      events := ProcessEvents(events))
  }

  /**
   * Pass 1 as the source runs it: each event is appended to the processed
   * list, and the first non-empty package id and module are kept.
   */
  method ScanEvents(events: seq<Event>) returns (processed: seq<ProcessedEvent>, packageId: string, functionName: string)
    ensures processed == ProcessEvents(events)
    ensures packageId == FirstNonEmpty(PackageIds(events))
    ensures functionName == FirstNonEmpty(Modules(events))
  {
    processed, packageId, functionName := [], "", "";
    var i := 0;
    while i < |events|
      invariant 0 <= i <= |events|
      invariant |processed| == i
      invariant forall j :: 0 <= j < i ==> processed[j] == ProcessEvent(events[j])
      invariant packageId == FirstNonEmpty(PackageIds(events[..i]))
      invariant functionName == FirstNonEmpty(Modules(events[..i]))
    {
      var event := events[i];
      processed := processed + [ProcessEvent(event)];
      if packageId == "" && OrEmpty(event.packageId) != "" {
        packageId := OrEmpty(event.packageId);
      }
      if functionName == "" && OrEmpty(event.transactionModule) != "" {
        functionName := OrEmpty(event.transactionModule);
      }
      EventFieldsExtend(events, i);
      FirstNonEmptyAppend(PackageIds(events[..i]), OrEmpty(event.packageId));
      FirstNonEmptyAppend(Modules(events[..i]), OrEmpty(event.transactionModule));
      i := i + 1;
    }
    assert events[..i] == events;
  }

  /**
   * Pass 2 as the source runs it: scan the commands for the first MoveCall and
   * stop there.
   */
  method ScanCommands(kind: Option<TxKind>, packageId0: string, functionName0: string) returns (origin: Origin)
    ensures origin == ResolveOrigin(kind, packageId0, functionName0)
  {
    var transactionType, packageId, functionName := "unknown", packageId0, functionName0;
    if kind.Some? {
      var info := kind.value;
      transactionType := info.kind.GetOr("unknown");
      if packageId == "" && transactionType == "ProgrammableTransaction" && info.commands.Some? {
        var cmds := info.commands.value;
        var j := 0;
        while j < |cmds|
          invariant 0 <= j <= |cmds|
          invariant forall k :: 0 <= k < j ==> !IsMoveCall(cmds[k])
          invariant packageId == packageId0 && functionName == functionName0
        {
          var cmd := cmds[j];
          if cmd.CommandObject? && cmd.commandType == Some("MoveCall") {
            packageId := OrEmpty(cmd.package);
            var moduleName := OrEmpty(cmd.moduleName);
            var func := OrEmpty(cmd.functionName);
            if moduleName != "" && func != "" {
              functionName := moduleName + "::" + func;
            }
            assert FirstMoveCall(cmds) == Some(j);
            break;
          }
          j := j + 1;
        }
      }
    }
    origin := Origin(transactionType, packageId, functionName);
  }

  /** The object-change loop: each change is appended to the bucket its lower-cased type names. */
  method ScanObjectChanges(changes: seq<ObjectChange>) returns (created: seq<string>, deleted: seq<string>, modified: seq<string>)
    ensures created == BucketIds(changes, Created)
    ensures deleted == BucketIds(changes, Deleted)
    ensures modified == BucketIds(changes, Modified)
  {
    created, deleted, modified := [], [], [];
    var k := 0;
    while k < |changes|
      invariant 0 <= k <= |changes|
      invariant created == BucketIds(changes[..k], Created)
      invariant deleted == BucketIds(changes[..k], Deleted)
      invariant modified == BucketIds(changes[..k], Modified)
    {
      var change := changes[k];
      var changeType := AsciiLower(change.changeType.GetOr(""));
      var objectId := OrEmpty(change.objectId);
      if objectId != "" {
        if changeType == "created" {
          created := created + [objectId];
        } else if changeType == "deleted" {
          deleted := deleted + [objectId];
        } else if changeType == "modified" {
          modified := modified + [objectId];
        }
      }
      assert changes[..k + 1][..k] == changes[..k];
      k := k + 1;
    }
    assert changes[..k] == changes;
  }

  /** The supplementary-deletion loop: append each non-empty id not already in `deleted`. */
  method AppendDeletedRefs(deleted0: seq<string>, refs: seq<ObjectRef>) returns (deleted: seq<string>)
    ensures deleted == MergeDeleted(deleted0, refs)
  {
    deleted := deleted0;
    var m := 0;
    while m < |refs|
      invariant 0 <= m <= |refs|
      invariant MergeDeleted(deleted, refs[m..]) == MergeDeleted(deleted0, refs)
    {
      var objId := OrEmpty(refs[m].objectId);
      if objId != "" && objId !in deleted {
        deleted := deleted + [objId];
      }
      assert refs[m..][1..] == refs[m + 1..];
      m := m + 1;
    }
  }

  /** `cleanse_transaction`: the steps above in the source's order. */
  method CleanseTransaction(env: Envelope, now: int) returns (r: Record)
    ensures r == Cleanse(env, now)
  {
    var txData := TxDataOf(env);
    var effects := EffectsOf(env);
    var sender := OrEmpty(txData.sender);

    var processed, packageId, functionName := ScanEvents(EventsOf(env));
    var origin := ScanCommands(txData.transaction, packageId, functionName);

    var status := StatusOf(effects);
    var gasUsed := TotalGas(effects.gasUsed);

    var created, deleted, modified := ScanObjectChanges(effects.objectChanges.GetOr([]));
    if effects.deleted.Some? {
      deleted := AppendDeletedRefs(deleted, effects.deleted.value);
    }

    var timestamp := TimestampOf(env.timestampMs, now);

    r := Record(
      digest := OrEmpty(env.digest),
      sender := sender,
      timestamp := timestamp,
      checkpoint := env.checkpoint.GetOr(0),
      transactionType := origin.transactionType,
      status := status,
      packageId := origin.packageId,
      functionName := origin.functionName,
      totalGasUsed := gasUsed,
      createdObjects := created,
      deletedObjects := deleted,
      modifiedObjects := modified,
      events := processed);
  }

  // ---------------------------------------------------------------------------
  // What the record means
  // ---------------------------------------------------------------------------

  /**
   * Events win: when some event carries a package id, the first such id is the
   * record's, the commands are not consulted, and the function is the first
   * non-empty event module (a module name, not a function name).
   */
  lemma EventsTakePrecedence(env: Envelope, now: int, k: int)
    requires IsFirstNonEmptyAt(PackageIds(EventsOf(env)), k)
    ensures Cleanse(env, now).packageId == OrEmpty(EventsOf(env)[k].packageId)
    ensures forall m :: IsFirstNonEmptyAt(Modules(EventsOf(env)), m) ==>
      Cleanse(env, now).functionName == OrEmpty(EventsOf(env)[m].transactionModule)
    ensures (forall m :: 0 <= m < |EventsOf(env)| ==> OrEmpty(EventsOf(env)[m].transactionModule) == "") ==>
      Cleanse(env, now).functionName == ""
  {
    FirstNonEmptyAt(PackageIds(EventsOf(env)), k);
    FirstNonEmptySpec(Modules(EventsOf(env)));
    forall m | IsFirstNonEmptyAt(Modules(EventsOf(env)), m)
      ensures Cleanse(env, now).functionName == OrEmpty(EventsOf(env)[m].transactionModule)
    {
      FirstNonEmptyAt(Modules(EventsOf(env)), m);
    }
  }

  /**
   * The MoveCall fallback: with no event package id, a programmable
   * transaction takes its package id from its first MoveCall (possibly `''`)
   * and its function from that call's `module::function` when both parts are
   * present; otherwise the module name found in the events stays.
   */
  lemma MoveCallFallback(env: Envelope, now: int, cmds: seq<Command>, j: int)
    requires TxDataOf(env).transaction.Some?
    requires TxDataOf(env).transaction.value.kind == Some("ProgrammableTransaction")
    requires TxDataOf(env).transaction.value.commands == Some(cmds)
    requires forall i :: 0 <= i < |EventsOf(env)| ==> OrEmpty(EventsOf(env)[i].packageId) == ""
    requires 0 <= j < |cmds| && IsMoveCall(cmds[j])
    requires forall i :: 0 <= i < j ==> !IsMoveCall(cmds[i])
    ensures Cleanse(env, now).transactionType == "ProgrammableTransaction"
    ensures Cleanse(env, now).packageId == OrEmpty(cmds[j].package)
    ensures Cleanse(env, now).functionName ==
      if OrEmpty(cmds[j].moduleName) != "" && OrEmpty(cmds[j].functionName) != ""
      then OrEmpty(cmds[j].moduleName) + "::" + OrEmpty(cmds[j].functionName)
      else FirstNonEmpty(Modules(EventsOf(env)))
  {
    var ids := PackageIds(EventsOf(env));
    assert forall i :: 0 <= i < |ids| ==> ids[i] == "";
    FirstNonEmptySpec(ids);
    var first := FirstMoveCall(cmds);
    assert first == Some(j) by {
      if first.Some? {
        assert !(first.value < j) && !(j < first.value);
      }
    }
  }

  /**
   * The converse: the package id and function found in the events are changed
   * only by the MoveCall fallback, i.e. only when the events gave no package
   * id, the transaction is programmable, has a command list and one of its
   * commands is a MoveCall. The transaction type is the kind, `'unknown'` by default.
   */
  lemma EventFieldsChangedOnlyByMoveCall(env: Envelope, now: int)
    ensures var r := Cleanse(env, now);
      var info := TxDataOf(env).transaction;
      (r.packageId != FirstNonEmpty(PackageIds(EventsOf(env))) ||
       r.functionName != FirstNonEmpty(Modules(EventsOf(env)))) ==>
        && FirstNonEmpty(PackageIds(EventsOf(env))) == ""
        && info.Some? && info.value.kind == Some("ProgrammableTransaction")
        && info.value.commands.Some?
        && exists j :: 0 <= j < |info.value.commands.value| && IsMoveCall(info.value.commands.value[j])
    ensures Cleanse(env, now).transactionType ==
      if TxDataOf(env).transaction.Some? then TxDataOf(env).transaction.value.kind.GetOr("unknown") else "unknown"
  {
    var info := TxDataOf(env).transaction;
    if info.Some? && info.value.commands.Some? {
      var first := FirstMoveCall(info.value.commands.value);
      if first.Some? {
        assert IsMoveCall(info.value.commands.value[first.value]);
      }
    }
  }

  /** An event's package and module beat a later MoveCall's. */
  lemma PrecedenceExample(now: int)
    ensures
      var env := Envelope(
        digest := None,
        transaction := Some(Transaction(Some(TxData(None, Some(TxKind(
          Some("ProgrammableTransaction"),
          Some([CommandObject(Some("MoveCall"), Some("0xB"), Some("m2"), Some("f"))]))))))),
        effects := None,
        events := Some([Event(None, None, Some("0xA"), Some("m1"), None)]),
        timestampMs := None,
        checkpoint := None);
      Cleanse(env, now).packageId == "0xA" && Cleanse(env, now).functionName == "m1"
  {
    var env := Envelope(
        digest := None,
        transaction := Some(Transaction(Some(TxData(None, Some(TxKind(
          Some("ProgrammableTransaction"),
          Some([CommandObject(Some("MoveCall"), Some("0xB"), Some("m2"), Some("f"))]))))))),
        effects := None,
        events := Some([Event(None, None, Some("0xA"), Some("m1"), None)]),
        timestampMs := None,
        checkpoint := None);
    EventsTakePrecedence(env, now, 0);
    assert IsFirstNonEmptyAt(Modules(EventsOf(env)), 0);
  }

  /**
   * The module name taken from an event is overwritten by `module::function`
   * when the events carried no package id and a MoveCall names both parts.
   */
  lemma ModuleOverwrittenExample(now: int)
    ensures
      var env := Envelope(
        digest := None,
        transaction := Some(Transaction(Some(TxData(None, Some(TxKind(
          Some("ProgrammableTransaction"),
          Some([OtherCommand(JString("TransferObjects")),
                CommandObject(Some("MoveCall"), Some("0xB"), Some("m2"), Some("f")),
                CommandObject(Some("MoveCall"), Some("0xC"), Some("m3"), Some("g"))]))))))),
        effects := None,
        events := Some([Event(None, None, None, Some("m1"), None)]),
        timestampMs := None,
        checkpoint := None);
      Cleanse(env, now).packageId == "0xB" && Cleanse(env, now).functionName == "m2::f"
  {
    var cmds := [OtherCommand(JString("TransferObjects")),
                 CommandObject(Some("MoveCall"), Some("0xB"), Some("m2"), Some("f")),
                 CommandObject(Some("MoveCall"), Some("0xC"), Some("m3"), Some("g"))];
    var env := Envelope(
        digest := None,
        transaction := Some(Transaction(Some(TxData(None, Some(TxKind(
          Some("ProgrammableTransaction"), Some(cmds))))))),
        effects := None,
        events := Some([Event(None, None, None, Some("m1"), None)]),
        timestampMs := None,
        checkpoint := None);
    MoveCallFallback(env, now, cmds, 1);
  }

  /** An envelope with gas costs only. */
  function GasEnvelope(gas: Option<GasInfo>): Envelope {
    Envelope(None, None, Some(Effects(None, gas, None, None)), None, None, None)
  }

  /** Gas is computation plus storage minus rebate, signed; missing parts count as 0. */
  lemma GasArithmetic(now: int)
    ensures Cleanse(GasEnvelope(Some(GasInfo(Some(100), Some(50), Some(30)))), now).totalGasUsed == 120
    ensures Cleanse(GasEnvelope(Some(GasInfo(Some(10), Some(0), Some(50)))), now).totalGasUsed == -40
    ensures Cleanse(GasEnvelope(Some(GasInfo(None, None, Some(7)))), now).totalGasUsed == -7
    ensures Cleanse(GasEnvelope(None), now).totalGasUsed == 0
  {
  }

  /** An empty envelope yields every documented default, with the ingestion clock as timestamp. */
  lemma EmptyEnvelopeDefaults(now: int)
    ensures Cleanse(Envelope(None, None, None, None, None, None), now)
         == Record("", "", IngestionTime(now), 0, "unknown", "unknown", "", "", 0, [], [], [], [])
  {
  }

  /** Bucketing respects concatenation, so each bucket keeps the source order. */
  lemma {:induction false} BucketIdsConcat(xs: seq<ObjectChange>, ys: seq<ObjectChange>, b: Bucket)
    ensures BucketIds(xs + ys, b) == BucketIds(xs, b) + BucketIds(ys, b)
    decreases |ys|
  {
    if ys == [] {
      assert xs + ys == xs;
    } else {
      var zs, front, last := xs + ys, ys[..|ys| - 1], ys[|ys| - 1];
      var tail := if Classify(last) == Some(b) then [OrEmpty(last.objectId)] else [];
      assert zs[..|zs| - 1] == xs + front;
      assert zs[|zs| - 1] == last;
      assert BucketIds(zs, b) == BucketIds(xs + front, b) + tail;
      assert BucketIds(ys, b) == BucketIds(front, b) + tail;
      BucketIdsConcat(xs, front, b);
    }
  }

  /** The number of object changes that go to some bucket. */
  function ClassifiedCount(changes: seq<ObjectChange>): nat {
    if changes == [] then 0
    else ClassifiedCount(changes[..|changes| - 1]) + if Classify(changes[|changes| - 1]).Some? then 1 else 0
  }

  /** Each kept change lands in exactly one bucket: the three buckets together hold one id per kept change. */
  lemma {:induction false} BucketsPartition(changes: seq<ObjectChange>)
    ensures |BucketIds(changes, Created)| + |BucketIds(changes, Deleted)| + |BucketIds(changes, Modified)|
         == ClassifiedCount(changes)
  {
    if changes != [] {
      BucketsPartition(changes[..|changes| - 1]);
    }
  }

  predicate NoDuplicates(s: seq<string>) {
    forall i, j :: 0 <= i < j < |s| ==> s[i] != s[j]
  }

  /** Merging the supplementary list adds no duplicate to a duplicate-free list. */
  lemma MergeDeletedNoDuplicates(deleted: seq<string>, refs: seq<ObjectRef>)
    requires NoDuplicates(deleted)
    ensures NoDuplicates(MergeDeleted(deleted, refs))
  {
    var r := MergeDeleted(deleted, refs);
    MergeDeletedAppendsNew(deleted, refs);
    forall i, j | 0 <= i < j < |r| ensures r[i] != r[j] {
      if j < |deleted| {
        assert r[i] == deleted[i] && r[j] == deleted[j];
      } else {
        assert r[i] in r[..j];
      }
    }
  }

  /** The object id of every supplementary deletion entry, `''` where absent. */
  function RefIds(refs: seq<ObjectRef>): seq<string> {
    seq(|refs|, j requires 0 <= j < |refs| => OrEmpty(refs[j].objectId))
  }

  /**
   * The ids of `ids`, in order, that are non-empty, not in `deleted`, and at
   * their first occurrence in `ids`; defined from the end, position by position.
   */
  function NewIds(deleted: seq<string>, ids: seq<string>): seq<string>
    decreases |ids|
  {
    if ids == [] then []
    else
      var pre, last := ids[..|ids| - 1], ids[|ids| - 1];
      NewIds(deleted, pre) + (if last != "" && last !in deleted && last !in pre then [last] else [])
  }

  /** An id is among the new ids exactly when it is non-empty, not in `deleted`, and occurs in `ids`. */
  lemma {:induction false} NewIdsMembers(deleted: seq<string>, ids: seq<string>, x: string)
    ensures x in NewIds(deleted, ids) <==> x != "" && x !in deleted && x in ids
    decreases |ids|
  {
    if ids != [] {
      var pre, last := ids[..|ids| - 1], ids[|ids| - 1];
      NewIdsMembers(deleted, pre, x);
      assert ids == pre + [last];
    }
  }

  /** After the first `m` entries have been merged, merging the rest completes `deleted + NewIds`. */
  lemma {:induction false} MergeDeletedFrom(deleted: seq<string>, refs: seq<ObjectRef>, m: nat)
    requires m <= |refs|
    ensures MergeDeleted(deleted + NewIds(deleted, RefIds(refs)[..m]), refs[m..])
         == deleted + NewIds(deleted, RefIds(refs))
    decreases |refs| - m
  {
    var ids := RefIds(refs);
    var acc := deleted + NewIds(deleted, ids[..m]);
    if m == |refs| {
      assert ids[..m] == ids;
      assert refs[m..] == [];
    } else {
      var id := ids[m];
      assert refs[m..][0] == refs[m] && refs[m..][1..] == refs[m + 1..];
      NewIdsMembers(deleted, ids[..m], id);
      assert ids[..m + 1][..m] == ids[..m] && ids[..m + 1][m] == id;
      var next := if id != "" && id !in acc then acc + [id] else acc;
      assert next == deleted + NewIds(deleted, ids[..m + 1]);
      MergeDeletedFrom(deleted, refs, m + 1);
    }
  }

  /**
   * The merge appends, in first-seen order, each non-empty supplementary id
   * not already in the list, once: it equals `deleted + NewIds(deleted, RefIds(refs))`.
   */
  lemma MergeDeletedInFirstSeenOrder(deleted: seq<string>, refs: seq<ObjectRef>)
    ensures MergeDeleted(deleted, refs) == deleted + NewIds(deleted, RefIds(refs))
  {
    MergeDeletedFrom(deleted, refs, 0);
    assert RefIds(refs)[..0] == [];
    assert deleted + [] == deleted;
    assert refs[0..] == refs;
  }

  /** An id deleted in both lists appears once, and supplementary ids follow in first-seen order. */
  lemma DedupExample(now: int)
    ensures
      var env := Envelope(None, None,
        Some(Effects(None, None,
          Some([ObjectChange(Some("Deleted"), Some("0x1")), ObjectChange(Some("created"), Some("0x9"))]),
          Some([ObjectRef(Some("0x2")), ObjectRef(Some("0x1")), ObjectRef(Some("0x2"))]))),
        None, None, None);
      Cleanse(env, now).deletedObjects == ["0x1", "0x2"] && Cleanse(env, now).createdObjects == ["0x9"]
  {
    var changes := [ObjectChange(Some("Deleted"), Some("0x1")), ObjectChange(Some("created"), Some("0x9"))];
    var refs := [ObjectRef(Some("0x2")), ObjectRef(Some("0x1")), ObjectRef(Some("0x2"))];
    DedupExampleBuckets(changes);
    DedupExampleMerge(refs);
  }

  lemma DedupExampleBuckets(changes: seq<ObjectChange>)
    requires changes == [ObjectChange(Some("Deleted"), Some("0x1")), ObjectChange(Some("created"), Some("0x9"))]
    ensures BucketIds(changes, Deleted) == ["0x1"] && BucketIds(changes, Created) == ["0x9"]
  {
    assert AsciiLower("Deleted") == "deleted";
    assert AsciiLower("created") == "created";
    assert Classify(changes[0]) == Some(Deleted);
    assert Classify(changes[1]) == Some(Created);
    var first := changes[..1];
    assert first[..0] == [];
    assert BucketIds(first, Deleted) == ["0x1"];
    assert BucketIds(first, Created) == [];
  }

  lemma DedupExampleMerge(refs: seq<ObjectRef>)
    requires refs == [ObjectRef(Some("0x2")), ObjectRef(Some("0x1")), ObjectRef(Some("0x2"))]
    ensures MergeDeleted(["0x1"], refs) == ["0x1", "0x2"]
  {
    var seen: seq<string> := ["0x1", "0x2"];
    assert ["0x1"] + ["0x2"] == seen;
    assert MergeDeleted(["0x1"], refs) == MergeDeleted(seen, refs[1..]);
    assert MergeDeleted(seen, refs[1..]) == MergeDeleted(seen, refs[2..]);
    assert MergeDeleted(seen, refs[2..]) == MergeDeleted(seen, []);
  }
}
