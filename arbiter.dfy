/** The insert-and-retry loop of `create_tracking_number` (trackingnum/utils.py)
    over the `TrackingNumber` table, whose `tracking_number` column is unique. */
module Arbiter {
  import opened PyText
  import opened TrackingNumbers

  /** The loop gives up once `attempt` exceeds this. */
  const MaxAttempts := 50

  /** What one `TrackingNumber.objects.create` call does: it succeeds, raises
      `IntegrityError` because the key is taken, or raises some other exception. */
  datatype InsertOutcome = Inserted | Conflict | Fault

  /** The outcome of an insert of `key` into a table holding `keys`; `faulty`
      says whether the database fails this call for a reason other than the
      uniqueness constraint. */
  function InsertResult(keys: set<string>, faulty: bool, key: string): (o: InsertOutcome)
    ensures o == Inserted <==> !faulty && key !in keys
    ensures o == Conflict <==> !faulty && key in keys
  {
    if faulty then Fault else if key in keys then Conflict else Inserted
  }

  /** The result of `create_tracking_number`: the committed number and the
      `created_at` text; the exception raised after too many conflicts; or,
      in this model only, the loop still running when the fuel is spent. */
  datatype Outcome = Created(trackingNumber: string, createdAt: string) | RetryExhausted | StillRetrying

  /** An outcome with the number of insert calls made to reach it. */
  datatype Trace = Trace(outcome: Outcome, calls: nat)

  function Later(t: Trace, n: nat): Trace { Trace(t.outcome, t.calls + n) }

  /** The candidates the loop tries, indexed by `attempt`. */
  function Candidates(p: Parts): nat -> string
  {
    (k: nat) => Candidate(p, k)
  }

  /** The loop, followed for at most `fuel` insert calls, from the state where
      `attempt` has the given value and the next insert is call number `call`;
      `candidate(k)` is the number tried while `attempt == k`. This is the
      reference against which the method below is proved. */
  function Run(keys: set<string>, faultAt: nat -> bool, call: nat, candidate: nat -> string,
               createdAt: string, attempt: nat, fuel: nat): Trace
    requires attempt <= MaxAttempts
    decreases fuel
  {
    if fuel == 0 then Trace(StillRetrying, 0)
    else
      match InsertResult(keys, faultAt(call), candidate(attempt))
      case Inserted => Trace(Created(candidate(attempt), createdAt), 1)
      case Conflict =>
        if attempt + 1 > MaxAttempts then Trace(RetryExhausted, 1)
        else Later(Run(keys, faultAt, call + 1, candidate, createdAt, attempt + 1, fuel - 1), 1)
      case Fault => Later(Run(keys, faultAt, call + 1, candidate, createdAt, attempt, fuel - 1), 1)
  }

  /** One step of `Run`, unfolded: the outcome of the next insert call decides
      whether the loop stops or continues, and from which attempt. */
  lemma RunStep(keys: set<string>, faultAt: nat -> bool, call: nat, candidate: nat -> string,
                createdAt: string, attempt: nat, fuel: nat)
    requires attempt <= MaxAttempts && fuel > 0
    ensures var t := Run(keys, faultAt, call, candidate, createdAt, attempt, fuel);
            var o := InsertResult(keys, faultAt(call), candidate(attempt));
            && (o == Inserted ==> t == Trace(Created(candidate(attempt), createdAt), 1))
            && (o == Conflict && attempt + 1 > MaxAttempts ==> t == Trace(RetryExhausted, 1))
            && (o == Conflict && attempt + 1 <= MaxAttempts ==>
                  t == Later(Run(keys, faultAt, call + 1, candidate, createdAt, attempt + 1, fuel - 1), 1))
            && (o == Fault ==> t == Later(Run(keys, faultAt, call + 1, candidate, createdAt, attempt, fuel - 1), 1))
  {
  }

  /** `k` is the first attempt from `from` on whose candidate is free. */
  ghost predicate FirstFree(keys: set<string>, candidate: nat -> string, from: nat, k: nat)
  {
    && from <= k <= MaxAttempts
    && candidate(k) !in keys
    && forall j :: from <= j < k ==> candidate(j) in keys
  }

  predicate NoFaults(faultAt: nat -> bool, call: nat, n: nat)
  {
    forall i :: call <= i < call + n ==> !faultAt(i)
  }

  /** A committed number was free, is the candidate of the first attempt whose
      candidate was free, and comes with the `created_at` fixed before the loop. */
  lemma {:induction false} RunCreated(keys: set<string>, faultAt: nat -> bool, call: nat, candidate: nat -> string,
                                      createdAt: string, attempt: nat, fuel: nat)
    requires attempt <= MaxAttempts
    ensures var t := Run(keys, faultAt, call, candidate, createdAt, attempt, fuel);
            t.outcome.Created? ==>
              && t.outcome.trackingNumber !in keys
              && t.outcome.createdAt == createdAt
              && 1 <= t.calls <= fuel
              && exists k :: FirstFree(keys, candidate, attempt, k) && t.outcome.trackingNumber == candidate(k)
    decreases fuel
  {
    var t := Run(keys, faultAt, call, candidate, createdAt, attempt, fuel);
    if fuel == 0 {
    } else if faultAt(call) {
      RunCreated(keys, faultAt, call + 1, candidate, createdAt, attempt, fuel - 1);
    } else if candidate(attempt) !in keys {
      assert FirstFree(keys, candidate, attempt, attempt);
    } else if attempt < MaxAttempts {
      RunCreated(keys, faultAt, call + 1, candidate, createdAt, attempt + 1, fuel - 1);
      if t.outcome.Created? {
        var k :| FirstFree(keys, candidate, attempt + 1, k) && t.outcome.trackingNumber == candidate(k);
        assert FirstFree(keys, candidate, attempt, k);
      }
    }
  }

  /** The loop gives up only when the candidates of every remaining attempt,
      up to and including attempt 50, are all taken. */
  lemma {:induction false} RunExhausted(keys: set<string>, faultAt: nat -> bool, call: nat, candidate: nat -> string,
                                        createdAt: string, attempt: nat, fuel: nat)
    requires attempt <= MaxAttempts
    ensures Run(keys, faultAt, call, candidate, createdAt, attempt, fuel).outcome == RetryExhausted ==>
              forall k :: attempt <= k <= MaxAttempts ==> candidate(k) in keys
    decreases fuel
  {
    if fuel == 0 {
    } else if faultAt(call) {
      RunExhausted(keys, faultAt, call + 1, candidate, createdAt, attempt, fuel - 1);
    } else if candidate(attempt) in keys && attempt < MaxAttempts {
      RunExhausted(keys, faultAt, call + 1, candidate, createdAt, attempt + 1, fuel - 1);
    }
  }

  /** When every candidate is taken and the database never fails otherwise, the
      loop makes one insert call per remaining attempt (51 from the start: the
      base and attempts 1 to 50) and then gives up; the alternate computed for
      attempt 51 is never inserted. */
  lemma {:induction false} RunAllConflicts(keys: set<string>, faultAt: nat -> bool, call: nat, candidate: nat -> string,
                                           createdAt: string, attempt: nat, fuel: nat)
    requires attempt <= MaxAttempts
    requires forall k :: attempt <= k <= MaxAttempts ==> candidate(k) in keys
    requires NoFaults(faultAt, call, MaxAttempts + 1 - attempt)
    requires fuel >= MaxAttempts + 1 - attempt
    ensures Run(keys, faultAt, call, candidate, createdAt, attempt, fuel) == Trace(RetryExhausted, MaxAttempts + 1 - attempt)
    decreases fuel
  {
    assert !faultAt(call);
    assert candidate(attempt) in keys;
    if attempt < MaxAttempts {
      RunAllConflicts(keys, faultAt, call + 1, candidate, createdAt, attempt + 1, fuel - 1);
    }
  }

  /** Without non-uniqueness faults the loop ends, with a number or by giving
      up, within one insert call per remaining attempt. */
  lemma {:induction false} RunWithoutFaultsEnds(keys: set<string>, faultAt: nat -> bool, call: nat, candidate: nat -> string,
                                                createdAt: string, attempt: nat, fuel: nat)
    requires attempt <= MaxAttempts
    requires NoFaults(faultAt, call, MaxAttempts + 1 - attempt)
    requires fuel >= MaxAttempts + 1 - attempt
    ensures var t := Run(keys, faultAt, call, candidate, createdAt, attempt, fuel);
            t.outcome != StillRetrying && 1 <= t.calls <= MaxAttempts + 1 - attempt
    decreases fuel
  {
    assert !faultAt(call);
    if attempt < MaxAttempts && candidate(attempt) in keys {
      RunWithoutFaultsEnds(keys, faultAt, call + 1, candidate, createdAt, attempt + 1, fuel - 1);
    }
  }

  /** A database that fails every call keeps the loop retrying the same
      candidate forever: however much fuel is given, all of it is spent. */
  lemma {:induction false} RunUnderPersistentFaults(keys: set<string>, faultAt: nat -> bool, call: nat,
                                                    candidate: nat -> string, createdAt: string, attempt: nat, fuel: nat)
    requires attempt <= MaxAttempts
    requires forall i :: call <= i ==> faultAt(i)
    ensures Run(keys, faultAt, call, candidate, createdAt, attempt, fuel) == Trace(StillRetrying, fuel)
    decreases fuel
  {
    if fuel > 0 {
      assert faultAt(call);
      RunUnderPersistentFaults(keys, faultAt, call + 1, candidate, createdAt, attempt, fuel - 1);
    }
  }

  /** What a whole run of the loop, from attempt 0, promises about its outcome. */
  lemma OutcomeFacts(keys: set<string>, faultAt: nat -> bool, call: nat, originCountryId: string,
                     destinationCountryId: string, customerId: string, formattedTime: string, fuel: nat)
    ensures var p := PartsOf(originCountryId, destinationCountryId, customerId);
            var r := Run(keys, faultAt, call, Candidates(p), OffsetWithColon(formattedTime), 0, fuel).outcome;
            && (r.Created? ==>
                  && r.trackingNumber !in keys
                  && r.createdAt == OffsetWithColon(formattedTime)
                  && (exists k :: FirstFree(keys, Candidates(p), 0, k) && r.trackingNumber == Candidate(p, k))
                  && (ValidatedInputs(originCountryId, destinationCountryId, customerId) ==>
                        IsTrackingNumberText(r.trackingNumber)))
            && (r == RetryExhausted ==> forall k :: 0 <= k <= MaxAttempts ==> Candidate(p, k) in keys)
  {
    var p := PartsOf(originCountryId, destinationCountryId, customerId);
    var createdAt := OffsetWithColon(formattedTime);
    RunCreated(keys, faultAt, call, Candidates(p), createdAt, 0, fuel);
    RunExhausted(keys, faultAt, call, Candidates(p), createdAt, 0, fuel);
    var r := Run(keys, faultAt, call, Candidates(p), createdAt, 0, fuel).outcome;
    assert forall k :: 0 <= k <= MaxAttempts ==> Candidates(p)(k) == Candidate(p, k);
    if r.Created? {
      var k: nat :| FirstFree(keys, Candidates(p), 0, k) && r.trackingNumber == Candidates(p)(k);
      if ValidatedInputs(originCountryId, destinationCountryId, customerId) {
        DecimalLength(k, 2);
        CandidateFormat(originCountryId, destinationCountryId, customerId, k);
      }
    }
  }

  /** The `TrackingNumber` table: rows keyed by the unique tracking number,
      holding the `created_at` text, and the database's behaviour towards the
      insert calls made to it. */
  class Store {
    /** tracking_number -> created_at */
    var rows: map<string, string>
    /** Insert calls made so far. */
    var calls: nat
    /** Whether insert call number i fails for a reason other than uniqueness. */
    const faultAt: nat -> bool
    /** The tracking numbers committed through this store, in order. */
    ghost var issued: seq<string>

    ghost predicate Valid()
      reads this
    {
      && (forall i, j :: 0 <= i < j < |issued| ==> issued[i] != issued[j])
      && (forall i :: 0 <= i < |issued| ==> issued[i] in rows)
    }

    constructor (faultAt: nat -> bool)
      ensures Valid()
      ensures rows == map[] && calls == 0 && issued == [] && this.faultAt == faultAt
    {
      rows := map[];
      calls := 0;
      this.faultAt := faultAt;
      issued := [];
    }

    /** `TrackingNumber.objects.create(tracking_number=..., created_at=...)`, atomic. */
    method Insert(trackingNumber: string, createdAt: string) returns (o: InsertOutcome)
      requires Valid()
      modifies this
      ensures Valid()
      ensures o == InsertResult(old(rows).Keys, faultAt(old(calls)), trackingNumber)
      ensures calls == old(calls) + 1
      ensures o == Inserted ==> rows == old(rows)[trackingNumber := createdAt] && issued == old(issued) + [trackingNumber]
      ensures o != Inserted ==> rows == old(rows) && issued == old(issued)
    {
      o := InsertResult(rows.Keys, faultAt(calls), trackingNumber);
      calls := calls + 1;
      if o == Inserted {
        rows := rows[trackingNumber := createdAt];
        issued := issued + [trackingNumber];
      }
    }
  }

  /** The insert-and-retry loop of `create_tracking_number` over the normalised
      parts, followed for at most `fuel` insert calls: it behaves as `Run` says. */
  method RetryInsert(db: Store, originPart: string, destinationPart: string, customerIdPart: string,
                     createdAt: string, fuel: nat)
    returns (r: Outcome)
    requires db.Valid()
    modifies db
    ensures db.Valid()
    ensures var t := Run(old(db.rows).Keys, db.faultAt, old(db.calls),
                         Candidates(Parts(originPart, destinationPart, customerIdPart)), createdAt, 0, fuel);
            r == t.outcome && db.calls == old(db.calls) + t.calls
    ensures r.Created? ==>
              && db.rows == old(db.rows)[r.trackingNumber := r.createdAt]
              && db.issued == old(db.issued) + [r.trackingNumber]
    ensures !r.Created? ==> db.rows == old(db.rows) && db.issued == old(db.issued)
  {
    ghost var p := Parts(originPart, destinationPart, customerIdPart);
    ghost var keys := db.rows.Keys;
    ghost var start := Run(keys, db.faultAt, db.calls, Candidates(p), createdAt, 0, fuel);
    var trackingNumber := GenerateTrackingNumber(originPart, destinationPart, customerIdPart);
    var attempt: nat := 0;
    var budget: nat := fuel;
    ghost var made: nat := 0;
    r := StillRetrying;
    while budget > 0
      invariant budget + made == fuel
      invariant attempt <= MaxAttempts && trackingNumber == Candidate(p, attempt)
      invariant db.Valid() && db.rows == old(db.rows) && db.issued == old(db.issued)
      invariant db.calls == old(db.calls) + made
      invariant start == Later(Run(keys, db.faultAt, db.calls, Candidates(p), createdAt, attempt, budget), made)
      decreases budget
    {
      ghost var before := Run(keys, db.faultAt, db.calls, Candidates(p), createdAt, attempt, budget);
      assert Candidates(p)(attempt) == trackingNumber;
      RunStep(keys, db.faultAt, db.calls, Candidates(p), createdAt, attempt, budget);
      var o := db.Insert(trackingNumber, createdAt);
      budget, made := budget - 1, made + 1;
      if o == Inserted {
        r := Created(trackingNumber, createdAt);
        assert before == Trace(r, 1);
        break;
      } else if o == Conflict {
        attempt := attempt + 1;
        trackingNumber := GenerateAlternateTrackingNumber(originPart, destinationPart, customerIdPart, attempt);
        if attempt > MaxAttempts {
          r := RetryExhausted;
          assert before == Trace(r, 1);
          break;
        }
      }
      // Any other exception is only logged, and the same number is tried again.
    }
  }

  /** `create_tracking_number`, with the formatted local time as an input and
      the loop followed for at most `fuel` insert calls. */
  method CreateTrackingNumber(db: Store, originCountryId: string, destinationCountryId: string,
                              customerId: string, formattedTime: string, fuel: nat)
    returns (r: Outcome)
    requires db.Valid()
    modifies db
    ensures db.Valid()
    ensures var t := Run(old(db.rows).Keys, db.faultAt, old(db.calls),
                         Candidates(PartsOf(originCountryId, destinationCountryId, customerId)),
                         OffsetWithColon(formattedTime), 0, fuel);
            r == t.outcome && db.calls == old(db.calls) + t.calls
    ensures r.Created? ==>
              && r.trackingNumber !in old(db.rows)
              && db.rows == old(db.rows)[r.trackingNumber := r.createdAt]
              && db.issued == old(db.issued) + [r.trackingNumber]
              && r.createdAt == OffsetWithColon(formattedTime)
              && exists k :: FirstFree(old(db.rows).Keys, Candidates(PartsOf(originCountryId, destinationCountryId, customerId)), 0, k)
                          && r.trackingNumber == Candidate(PartsOf(originCountryId, destinationCountryId, customerId), k)
    ensures r.Created? && ValidatedInputs(originCountryId, destinationCountryId, customerId) ==>
              IsTrackingNumberText(r.trackingNumber)
    ensures !r.Created? ==> db.rows == old(db.rows) && db.issued == old(db.issued)
    ensures r == RetryExhausted ==>
              forall k :: 0 <= k <= MaxAttempts ==>
                Candidate(PartsOf(originCountryId, destinationCountryId, customerId), k) in old(db.rows)
  {
    var originPart := Upper(originCountryId);
    var destinationPart := Upper(destinationCountryId);
    var customerIdPart := CustomerPart(customerId);
    var createdAt := OffsetWithColon(formattedTime);
    r := RetryInsert(db, originPart, destinationPart, customerIdPart, createdAt, fuel);
    OutcomeFacts(old(db.rows).Keys, db.faultAt, old(db.calls), originCountryId, destinationCountryId,
                 customerId, formattedTime, fuel);
  }

  /** Two orders placed one after the other on the same table never share a
      tracking number, whatever their inputs, identical ones included. */
  method TwoOrders(db: Store,
                   originCountryId1: string, destinationCountryId1: string, customerId1: string,
                   formattedTime1: string, fuel1: nat,
                   originCountryId2: string, destinationCountryId2: string, customerId2: string,
                   formattedTime2: string, fuel2: nat)
    returns (first: Outcome, second: Outcome)
    requires db.Valid()
    modifies db
    ensures db.Valid()
    ensures first.Created? && second.Created? ==>
              && first.trackingNumber != second.trackingNumber
              && db.issued == old(db.issued) + [first.trackingNumber, second.trackingNumber]
  {
    first := CreateTrackingNumber(db, originCountryId1, destinationCountryId1, customerId1, formattedTime1, fuel1);
    second := CreateTrackingNumber(db, originCountryId2, destinationCountryId2, customerId2, formattedTime2, fuel2);
  }
}
