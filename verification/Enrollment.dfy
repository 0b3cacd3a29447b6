/** Enrolling the leads of an approved outbound draft: one transaction over the enrollments of an account,
    with cross-sequence exclusivity. */
module Enrollment {
  datatype Lead = Lead(id: nat, email: string)

  datatype Status = Active | Inactive

  /** The enrollments of one account. */
  datatype Row = Row(sequenceId: nat, email: string, status: Status, currentStep: nat)

  predicate InSequence(db: seq<Row>, sequenceId: nat, email: string) {
    exists i :: 0 <= i < |db| && db[i].sequenceId == sequenceId && db[i].email == email
  }

  /** Some sequence of the account holds the address active. */
  predicate IsActive(db: seq<Row>, email: string) {
    exists i :: 0 <= i < |db| && db[i].status == Active && db[i].email == email
  }

  /** No address is active twice. */
  predicate Exclusive(db: seq<Row>) {
    forall i, j :: 0 <= i < j < |db| && db[i].status == Active && db[j].status == Active ==> db[i].email != db[j].email
  }

  predicate NewSequence(db: seq<Row>, sequenceId: nat) {
    forall i :: 0 <= i < |db| ==> db[i].sequenceId != sequenceId
  }

  /** The addresses among the first `n` leads that no sequence held active. */
  function Free(db: seq<Row>, leads: seq<Lead>, n: nat): set<string>
    requires n <= |leads|
  {
    set l | l in leads[..n] && !IsActive(db, l.email) :: l.email
  }

  lemma FreeStep(db: seq<Row>, leads: seq<Lead>, n: nat)
    requires n < |leads|
    ensures Free(db, leads, n + 1)
         == Free(db, leads, n) + (if IsActive(db, leads[n].email) then {} else {leads[n].email})
  {
    assert leads[..n + 1] == leads[..n] + [leads[n]];
  }

  /** What the transaction leaves after `n` leads: the old rows, then one active row per free address. */
  ghost predicate Enrolled(db: seq<Row>, after: seq<Row>, leads: seq<Lead>, n: nat, sequenceId: nat)
    requires n <= |leads|
  {
    && db <= after && |after| == |db| + |Free(db, leads, n)|
    && (forall i :: |db| <= i < |after| ==>
          after[i] == Row(sequenceId, after[i].email, Active, 0) && after[i].email in Free(db, leads, n))
    && (forall i, j :: |db| <= i < j < |after| ==> after[i].email != after[j].email)
    && (forall m :: m in Free(db, leads, n) ==> InSequence(after, sequenceId, m))
  }

  /** Leads turned away because another sequence holds them active. */
  function Conflicts(db: seq<Row>, leads: seq<Lead>, n: nat): nat
    requires n <= |leads|
  {
    if n == 0 then 0 else Conflicts(db, leads, n - 1) + (if IsActive(db, leads[n - 1].email) then 1 else 0)
  }

  /** The leads whose address some row holds active. */
  ghost function Held(db: seq<Row>, leads: seq<Lead>, n: nat): set<nat>
    requires n <= |leads|
  {
    set k | 0 <= k < n && (exists i :: 0 <= i < |db| && db[i].status == Active && db[i].email == leads[k].email)
  }

  /** The conflicts are those, counted one by one. */
  lemma {:induction false} ConflictsAreHeld(db: seq<Row>, leads: seq<Lead>, n: nat)
    requires n <= |leads|
    ensures Conflicts(db, leads, n) == |Held(db, leads, n)|
  {
    if n == 0 {
    } else {
      ConflictsAreHeld(db, leads, n - 1);
      if IsActive(db, leads[n - 1].email) {
        assert Held(db, leads, n) == Held(db, leads, n - 1) + {n - 1};
      } else {
        assert Held(db, leads, n) == Held(db, leads, n - 1);
      }
    }
  }

  /** Enrolling never makes an address active twice. */
  lemma EnrolledIsExclusive(db: seq<Row>, after: seq<Row>, leads: seq<Lead>, sequenceId: nat)
    requires Enrolled(db, after, leads, |leads|, sequenceId) && Exclusive(db)
    ensures Exclusive(after)
  {
    forall i, j | 0 <= i < j < |after| && after[i].status == Active && after[j].status == Active
      ensures after[i].email != after[j].email
    {
      assert forall k :: 0 <= k < |db| ==> after[k] == db[k];
    }
  }

  /** The members of the new sequence are exactly the leads' addresses that no sequence held active. */
  lemma MembersAreTheFree(db: seq<Row>, after: seq<Row>, leads: seq<Lead>, sequenceId: nat, email: string)
    requires Enrolled(db, after, leads, |leads|, sequenceId) && NewSequence(db, sequenceId)
    ensures InSequence(after, sequenceId, email) <==>
      && (exists l :: l in leads && l.email == email)
      && forall i :: 0 <= i < |db| && db[i].email == email ==> db[i].status != Active
  {
    assert IsActive(db, email) <==> !forall i :: 0 <= i < |db| && db[i].email == email ==> db[i].status != Active;
    assert leads[..|leads|] == leads;
    if InSequence(after, sequenceId, email) {
      assert forall i :: 0 <= i < |db| ==> after[i] == db[i];
    }
    if l :| l in leads && l.email == email && !IsActive(db, email) {
      assert email in Free(db, leads, |leads|);
    }
  }

  /** A lead that is in the new sequence already, or active anywhere, leaves everything as it is. */
  lemma TurnedAway(db: seq<Row>, after: seq<Row>, leads: seq<Lead>, n: nat, sequenceId: nat)
    requires n < |leads| && NewSequence(db, sequenceId) && Enrolled(db, after, leads, n, sequenceId)
    requires InSequence(after, sequenceId, leads[n].email) || IsActive(after, leads[n].email)
    ensures Enrolled(db, after, leads, n + 1, sequenceId)
    ensures InSequence(after, sequenceId, leads[n].email) <==> !IsActive(db, leads[n].email)
  {
    var m := leads[n].email;
    FreeStep(db, leads, n);
    assert forall k :: 0 <= k < |db| ==> after[k] == db[k];
    assert InSequence(after, sequenceId, m) ==> m in Free(db, leads, n);
    assert Free(db, leads, n + 1) == Free(db, leads, n);
  }

  lemma InSequenceStays(after: seq<Row>, r: Row, sequenceId: nat, email: string)
    requires InSequence(after, sequenceId, email)
    ensures InSequence(after + [r], sequenceId, email)
  {
    var i :| 0 <= i < |after| && after[i].sequenceId == sequenceId && after[i].email == email;
    assert (after + [r])[i] == after[i];
  }

  lemma Taken(db: seq<Row>, after: seq<Row>, leads: seq<Lead>, n: nat, sequenceId: nat)
    requires n < |leads| && Enrolled(db, after, leads, n, sequenceId)
    requires !InSequence(after, sequenceId, leads[n].email) && !IsActive(after, leads[n].email)
    ensures Enrolled(db, after + [Row(sequenceId, leads[n].email, Active, 0)], leads, n + 1, sequenceId)
    ensures |Free(db, leads, n + 1)| == |Free(db, leads, n)| + 1
    ensures !IsActive(db, leads[n].email)
  {
    var m := leads[n].email;
    var row := Row(sequenceId, m, Active, 0);
    FreeStep(db, leads, n);
    assert !IsActive(db, m) by {
      assert forall i :: 0 <= i < |db| ==> after[i] == db[i];
    }
    assert m !in Free(db, leads, n);
    forall k | k in Free(db, leads, n + 1) ensures InSequence(after + [row], sequenceId, k) {
      if k == m {
        assert (after + [row])[|after|] == row;
      } else {
        InSequenceStays(after, row, sequenceId, k);
      }
    }
  }

  class Account {
    var enrollments: seq<Row>

    /** The loop of `createSequenceAndEnrollFromDraft`, after the sequence was created. */
    method EnrollLeads(leads: seq<Lead>, sequenceId: nat) returns (enrolled: nat, skipped: nat, conflicts: nat)
      requires NewSequence(enrollments, sequenceId)
      modifies this
      ensures Enrolled(old(enrollments), enrollments, leads, |leads|, sequenceId)
      ensures enrolled == |Free(old(enrollments), leads, |leads|)|
      ensures conflicts == |Held(old(enrollments), leads, |leads|)|
      ensures enrolled + skipped + conflicts == |leads|
      ensures Exclusive(old(enrollments)) ==> Exclusive(enrollments)
    {
      ghost var db := enrollments;
      enrolled, skipped, conflicts := 0, 0, 0;
      var n := 0;
      while n < |leads|
        invariant n <= |leads| && Enrolled(db, enrollments, leads, n, sequenceId)
        invariant enrolled == |Free(db, leads, n)| && conflicts == Conflicts(db, leads, n)
        invariant enrolled + skipped + conflicts == n
      {
        var lead := leads[n];
        if InSequence(enrollments, sequenceId, lead.email) {
          TurnedAway(db, enrollments, leads, n, sequenceId);
          skipped := skipped + 1;
        } else if IsActive(enrollments, lead.email) {
          TurnedAway(db, enrollments, leads, n, sequenceId);
          conflicts := conflicts + 1;
        } else {
          Taken(db, enrollments, leads, n, sequenceId);
          enrollments := enrollments + [Row(sequenceId, lead.email, Active, 0)];
          enrolled := enrolled + 1;
        }
        n := n + 1;
      }
      ConflictsAreHeld(db, leads, |leads|);
      if Exclusive(db) {
        EnrolledIsExclusive(db, enrollments, leads, sequenceId);
      }
    }
  }
}
