/**
 * The poller (`main`'s loop and `get_latest_transaction`): each cycle asks for
 * the newest checkpoint's transaction digests, takes the last one, skips it if
 * it is empty or was the last one processed, and otherwise fetches, normalises
 * and stores the transaction, remembering its digest only once it is stored.
 *
 * Everything outside the process is an input of the cycle: the RPC answers
 * (already through the retry policy, so either a value or a raised failure),
 * whether the database raises, and the clock.
 */
module Poller {
  import opened Wrappers
  import opened Envelope
  import Normalizer
  import Store

  /** A value obtained from the node, or the exception the fetch raised. */
  datatype Fetch<T> = Fetched(value: T) | FetchFailed

  /** What the outside world does during one cycle. */
  datatype CycleInput = CycleInput(
    checkpoint: Fetch<seq<string>>,  // the latest checkpoint's `transactions` list
    details: Fetch<Envelope>,        // the envelope of the chosen digest
    storeFails: bool,                // the database raises during the upsert
    now: int)                        // the ingestion clock

  /** How a cycle ended: nothing new, a digest processed and stored, or an exception caught at the cycle boundary. */
  datatype CycleOutcome = NoNewTransaction | Processed(digest: string) | CycleFailed

  /** The latest transaction of a checkpoint: its last digest, `None` for an empty list. */
  function LatestTransaction(digests: seq<string>): (r: Option<string>)
    ensures r.None? <==> digests == []
    ensures r.Some? ==> r.value in digests && r.value == digests[|digests| - 1]
  {
    if digests == [] then None else Some(digests[|digests| - 1])
  }

  /** A digest is processed only if it is present, non-empty and not the last one processed. */
  predicate IsNew(latest: Option<string>, lastProcessed: Option<string>) {
    latest.Some? && latest.value != "" && latest != lastProcessed
  }

  /** The poller's state: `last_processed_tx` and the table. */
  datatype PollState = PollState(lastProcessed: Option<string>, table: map<string, Record>)

  /** What one cycle does to the state, and how it ends. */
  function Step(s: PollState, input: CycleInput): (PollState, CycleOutcome) {
    match input.checkpoint
    case FetchFailed => (s, CycleFailed)
    case Fetched(digests) =>
      var latest := LatestTransaction(digests);
      if !IsNew(latest, s.lastProcessed) then (s, NoNewTransaction)
      else
        match input.details
        case FetchFailed => (s, CycleFailed)
        case Fetched(env) =>
          if input.storeFails then (s, CycleFailed)
          else (PollState(latest, Store.Upsert(s.table, Normalizer.Cleanse(env, input.now))), Processed(latest.value))
  }

  /** A bounded run: the cycles for `inputs`, in order. */
  function RunCycles(s: PollState, inputs: seq<CycleInput>): (PollState, seq<CycleOutcome>)
    decreases |inputs|
  {
    if inputs == [] then (s, [])
    else
      var (s1, o) := Step(s, inputs[0]);
      var (s2, os) := RunCycles(s1, inputs[1..]);
      (s2, [o] + os)
  }

  /** The monitor's mutable state: the last processed digest and the store it writes to. */
  class Monitor {
    var lastProcessedTx: Option<string>
    const store: Store.TransactionStore

    /** The state on entering the poll loop: nothing processed yet. */
    constructor (store: Store.TransactionStore)
      ensures this.store == store && lastProcessedTx == None
    {
      this.store := store;
      lastProcessedTx := None;
    }

    function State(): PollState
      reads this, store
    {
      PollState(lastProcessedTx, store.table)
    }

    /** One iteration of the `while True` loop (its sleeps are not modelled). */
    method PollOnce(input: CycleInput) returns (outcome: CycleOutcome)
      modifies this, store
      ensures (State(), outcome) == Step(old(State()), input)
    {
      if input.checkpoint.FetchFailed? {
        return CycleFailed;
      }
      var latest := LatestTransaction(input.checkpoint.value);
      if latest.Some? && latest.value != "" && latest != lastProcessedTx {
        if input.details.FetchFailed? {
          return CycleFailed;
        }
        var cleaned := Normalizer.CleanseTransaction(input.details.value, input.now);
        var stored := store.StoreTransaction(cleaned, input.storeFails);
        if !stored {
          return CycleFailed;
        }
        lastProcessedTx := latest;
        outcome := Processed(latest.value);
      } else {
        outcome := NoNewTransaction;
      }
    }

    /** `len(inputs)` iterations of the poll loop. */
    method Run(inputs: seq<CycleInput>) returns (outcomes: seq<CycleOutcome>)
      modifies this, store
      ensures (State(), outcomes) == RunCycles(old(State()), inputs)
    {
      outcomes := [];
      var i := 0;
      assert inputs[i..] == inputs;
      while i < |inputs|
        invariant 0 <= i <= |inputs|
        invariant RunCycles(old(State()), inputs).0 == RunCycles(State(), inputs[i..]).0
        invariant RunCycles(old(State()), inputs).1 == outcomes + RunCycles(State(), inputs[i..]).1
      {
        ghost var before := State();
        ghost var rest := RunCycles(before, inputs[i..]);
        assert inputs[i..][1..] == inputs[i + 1..];
        var outcome := PollOnce(inputs[i]);
        assert rest.0 == RunCycles(State(), inputs[i + 1..]).0;
        assert rest.1 == [outcome] + RunCycles(State(), inputs[i + 1..]).1;
        outcomes := outcomes + [outcome];
        i := i + 1;
      }
      assert inputs[i..] == [];
      assert RunCycles(State(), inputs[i..]) == (State(), []);
      assert outcomes + [] == outcomes;
    }
  }

  // ---------------------------------------------------------------------------
  // Properties of the poll loop
  // ---------------------------------------------------------------------------

  /**
   * `last_processed_tx` and the table change only in a cycle that stored the
   * digest; a skipped or failed cycle leaves both as they were, so a failed
   * digest is tried again next cycle.
   */
  lemma StateChangesOnlyWhenStored(s: PollState, input: CycleInput)
    ensures var (s', o) := Step(s, input);
      (o.NoNewTransaction? || o.CycleFailed?) ==> s' == s
    ensures var (s', o) := Step(s, input);
      o.Processed? <==>
        && input.checkpoint.Fetched? && IsNew(LatestTransaction(input.checkpoint.value), s.lastProcessed)
        && input.details.Fetched? && !input.storeFails
    ensures var (s', o) := Step(s, input);
      o.Processed? ==>
        && s'.lastProcessed == Some(o.digest) == LatestTransaction(input.checkpoint.value)
        && s'.table == Store.Upsert(s.table, Normalizer.Cleanse(input.details.value, input.now))
  {
  }

  /** Skip-on-repeat: after a digest is stored, a cycle that sees it again stores nothing. */
  lemma SkipOnRepeat(s: PollState, first: CycleInput, second: CycleInput)
    requires Step(s, first).1.Processed?
    requires second.checkpoint.Fetched?
    requires LatestTransaction(second.checkpoint.value) == LatestTransaction(first.checkpoint.value)
    ensures Step(Step(s, first).0, second) == (Step(s, first).0, NoNewTransaction)
  {
  }

  /** The number of cycles that stored a transaction. */
  function CountProcessed(outcomes: seq<CycleOutcome>): nat {
    if outcomes == [] then 0
    else (if outcomes[0].Processed? then 1 else 0) + CountProcessed(outcomes[1..])
  }

  /** The cycle either failed to read the checkpoint or found `d` as its latest digest. */
  predicate SeesOnly(input: CycleInput, d: string) {
    input.checkpoint.Fetched? ==> LatestTransaction(input.checkpoint.value) == Some(d)
  }

  /**
   * However many cycles see the same latest digest, it is stored at most once,
   * and not at all if it was already the last one processed.
   */
  lemma {:induction false} AtMostOneStorePerDigest(s: PollState, inputs: seq<CycleInput>, d: string)
    requires forall i :: 0 <= i < |inputs| ==> SeesOnly(inputs[i], d)
    ensures CountProcessed(RunCycles(s, inputs).1) <= if s.lastProcessed == Some(d) then 0 else 1
    decreases |inputs|
  {
    if inputs != [] {
      var (s1, o) := Step(s, inputs[0]);
      AtMostOneStorePerDigest(s1, inputs[1..], d);
      assert RunCycles(s, inputs).1 == [o] + RunCycles(s1, inputs[1..]).1;
      assert ([o] + RunCycles(s1, inputs[1..]).1)[1..] == RunCycles(s1, inputs[1..]).1;
      if o.Processed? {
        assert s1.lastProcessed == Some(d);
      }
    }
  }

  /** Records are never deleted: every digest in the table stays in it. */
  lemma {:induction false} RunKeepsRows(s: PollState, inputs: seq<CycleInput>)
    ensures s.table.Keys <= RunCycles(s, inputs).0.table.Keys
    decreases |inputs|
  {
    if inputs != [] {
      RunKeepsRows(Step(s, inputs[0]).0, inputs[1..]);
    }
  }
}
