/** Every operation keeps the invariant, one operation at a time. */
module Steps {
  import opened Base
  import opened Shifts
  import opened Matching
  import opened Lifecycle
  import opened Invariants
  import O = Outbox

  // ---- a status written, and the candidate's own status after it ------------------------------

  /** The placements after one status is written. */
  function Written(ps: seq<Placement>, pid: Id, s: Status): seq<Placement>
    requires pid < |ps|
  {
    ps[pid := ps[pid].(status := s)]
  }

  lemma WriteKeepsTables(db: Db, pid: Id, s: Status)
    requires Sound(db) && pid < |db.placements|
    requires !GuardRefuses(db.requests, db.placements, pid, db.placements[pid].(status := s))
    requires (db.placements[pid].status == NoShow && s != NoShow) ==> !Covered(db.placements, pid)
    requires Standing(db.placements[pid])
    ensures var ps := Written(db.placements, pid, s);
      && Rooted(db.requests, ps, db.people) && NoDoubleBooking(db.requests, ps)
      && Chained(ps) && OncePerRequest(ps) && OneStandingCover(ps)
  {
    GuardedRowKeepsBooking(db.requests, db.placements, pid, db.placements[pid].(status := s));
    StatusKeepsChains(db.placements, pid, s);
  }

  lemma WriteKeepsOthersDerived(db: Db, pid: Id, s: Status, a: Db)
    requires StatusDerived(db.placements, db.members, db.results, db.people) && pid < |db.placements|
    requires a == db.(placements := Written(db.placements, pid, s))
    ensures DerivedBut(a, {db.placements[pid].candidate})
  {
    forall d | 0 <= d < |a.people| && d != db.placements[pid].candidate
      ensures Decided(a.people[d]) || a.people[d] == Derived(a.placements, a.members, a.results, d)
    {
      HasWorkElsewhere(db.placements, pid, s, d);
    }
  }

  /** A write the trigger lets through, followed by the refresh, keeps everything but the log and
      the mail, as long as it neither unmakes a covered no-show nor revives an ended row. */
  lemma WriteKeepsSound(db: Db, pid: Id, s: Status, a: Db)
    requires Sound(db) && pid < |db.placements| && SetStatus(db, pid, s) == Ok(a)
    requires (db.placements[pid].status == NoShow && s != NoShow) ==> !Covered(db.placements, pid)
    requires Standing(db.placements[pid])
    ensures var b := Refresh(a, db.placements[pid].candidate);
      Sound(b) && b.placements == Written(db.placements, pid, s) && b.log == db.log && b.box == db.box
  {
    var c := db.placements[pid].candidate;
    WriteKeepsTables(db, pid, s);
    WriteKeepsOthersDerived(db, pid, s, a);
    RefreshSettles(a, c, {c});
  }

  lemma OtherStatusKeepsLog(ps: seq<Placement>, log: map<LogKey, bool>, pid: Id, s: Status)
    requires LogDecides(ps, log) && pid < |ps| && ps[pid].status != NoShow && s != NoShow
    ensures LogDecides(Written(ps, pid, s), log)
  {
  }

  // ---- offers and covers ------------------------------------------------------------------------

  lemma InsertKeepsInv(db: Db, row: Placement, after: Db)
    requires Inv(db) && Insert(db, row) == Ok(after)
    requires row.status == Offered && row.request < |db.requests| && row.candidate < |db.people|
    requires row.covers.Some? ==> Coverable(db.placements, row, row.covers.value)
    ensures Inv(after) && after.placements == db.placements + [row] && after.log == db.log
  {
    GuardedRowKeepsBooking(db.requests, db.placements, |db.placements|, row);
    RowKeepsChains(db.placements, row);
    MoreRowsFit(db.placements, db.box, row);
    forall c | 0 <= c < |db.people|
      ensures Decided(after.people[c]) || after.people[c] == Derived(after.placements, after.members, after.results, c)
    {
      HasWorkMore(db.placements, row, c);
    }
  }

  /** Telling the worker and the employer of an offer. */
  lemma TellingOfAnOfferKeepsInv(db: Db, pid: Id, n: Notice)
    requires Inv(db) && pid < |db.placements| && Live(db.placements[pid].status)
    ensures Inv(OnOffered(db, pid, n)) && OnOffered(db, pid, n) == db.(box := OnOffered(db, pid, n).box)
  {
    LiveMailFits(db, pid, O.PlacementOffer, n, n.now);
    var told := ToCandidate(db, pid, O.PlacementOffer, n.smartphone, n.now);
    LiveMailFits(told, pid, O.EmployerWorkerAssigned, n, n.now);
  }

  lemma WriteOfferKeepsInv(db: Db, rid: Id, cid: Id, n: Notice, after: Db)
    requires Inv(db) && WriteOffer(db, rid, cid, n) == Ok(after)
    ensures Inv(after)
  {
    var d := Insert(db, OfferRow(db, rid, cid)).value;
    InsertKeepsInv(db, OfferRow(db, rid, cid), d);
    TellingOfAnOfferKeepsInv(d, |db.placements|, n);
  }

  lemma CoverKeepsInv(db: Db, failed: Id, cid: Id, pay: Option<int>, n: Notice, after: Db)
    requires Inv(db) && failed < |db.placements| && db.placements[failed].status == NoShow && cid < |db.people|
    requires CoverSent(db, failed, cid, pay, n) == Ok(after)
    ensures Inv(after)
  {
    var row := CoverRow(db, failed, cid, pay);
    var d := Insert(db, row).value;
    InsertKeepsInv(db, row, d);
    TellingOfAnOfferKeepsInv(d, |db.placements|, n);
    LiveMailFits(OnOffered(d, |db.placements|, n), |db.placements|, O.EmployerCoverSent, n, n.now);
  }

  // ---- answers, starts and ends ---------------------------------------------------------------------

  lemma RespondKeepsInv(db: Db, pid: Id, accepted: bool, n: Notice, after: Db)
    requires Inv(db) && Respond(db, pid, accepted, n) == Ok(after)
    ensures Inv(after)
  {
    var s := if accepted then Accepted else Declined;
    var a := SetStatus(db, pid, s).value;
    WriteKeepsSound(db, pid, s, a);
    OtherStatusKeepsLog(db.placements, db.log, pid, s);
    if accepted {
      StayingLiveFits(db.placements, db.box, pid, s);
      LiveMailFits(Refresh(a, db.placements[pid].candidate), pid, O.PlacementContract, n, n.now);
    } else {
      CallOffFits(db.placements, db.box, pid, s);
    }
  }

  lemma StartMessagesKeepInv(db: Db, pid: Id, startedOn: int, n: Notice)
    requires Inv(db) && pid < |db.placements| && Live(db.placements[pid].status)
    ensures Inv(OnStarted(db, pid, startedOn, n))
  {
    var reminderAt := O.AtKigali(startedOn - 1, 18 * O.HOUR);
    LiveMailFits(db, pid, O.ShiftReminder, n, reminderAt);
    var a := if reminderAt <= n.now then db else ToCandidate(db, pid, O.ShiftReminder, n.smartphone, reminderAt);
    LiveMailFits(a, pid, O.FollowUp(O.Day1), n, O.AtKigali(startedOn + 1, 9 * O.HOUR));
    var b := ToCandidate(a, pid, O.FollowUp(O.Day1), n.smartphone, O.AtKigali(startedOn + 1, 9 * O.HOUR));
    LiveMailFits(b, pid, O.FollowUp(O.Week1), n, O.AtKigali(startedOn + 7, 9 * O.HOUR));
    var c := ToCandidate(b, pid, O.FollowUp(O.Week1), n.smartphone, O.AtKigali(startedOn + 7, 9 * O.HOUR));
    LiveMailFits(c, pid, O.FollowUp(O.Day30), n, O.AtKigali(startedOn + 30, 9 * O.HOUR));
    var d := ToCandidate(c, pid, O.FollowUp(O.Day30), n.smartphone, O.AtKigali(startedOn + 30, 9 * O.HOUR));
    LiveMailFits(d, pid, O.FollowUp(O.Day90), n, O.AtKigali(startedOn + 90, 9 * O.HOUR));
  }

  lemma BegunKeepsInv(db: Db, pid: Id, startedOn: int, a: Db)
    requires Inv(db) && pid < |db.placements| && db.placements[pid].status in {Offered, Accepted}
    requires SetStatus(db, pid, Active) == Ok(a)
    ensures Inv(Begun(a, pid, startedOn)) && Begun(a, pid, startedOn).placements == Written(db.placements, pid, Active)
  {
    WriteKeepsSound(db, pid, Active, a);
    OtherStatusKeepsLog(db.placements, db.log, pid, Active);
    StayingLiveFits(db.placements, db.box, pid, Active);
    var b := Begun(a, pid, startedOn);
    assert b == Refresh(a, db.placements[pid].candidate).(started := b.started);
  }

  lemma StartKeepsInv(db: Db, pid: Id, startedOn: int, n: Notice, after: Db)
    requires Inv(db) && Start(db, pid, startedOn, n) == Ok(after)
    ensures Inv(after)
  {
    var a := SetStatus(db, pid, Active).value;
    BegunKeepsInv(db, pid, startedOn, a);
    StartMessagesKeepInv(Begun(a, pid, startedOn), pid, startedOn, n);
  }

  lemma EndKeepsInv(db: Db, pid: Id, from: set<Status>, to: Status, endedOn: Option<int>, today: int, after: Db)
    requires Inv(db) && End(db, pid, from, to, endedOn, today) == Ok(after)
    requires from <= {Accepted, Active} && to != NoShow
    ensures Inv(after)
  {
    var a := SetStatus(db, pid, to).value;
    assert db.placements[pid].status in {Accepted, Active};
    WriteKeepsSound(db, pid, to, a);
    OtherStatusKeepsLog(db.placements, db.log, pid, to);
    CallOffFits(db.placements, db.box, pid, to);
  }

  // ---- attendance ------------------------------------------------------------------------------------

  /** A day that does not change the verdict leaves the statuses right. */
  lemma LoggedDayKeepsInv(db: Db, pid: Id, day: int, present: bool)
    requires Inv(db) && pid < |db.placements| && db.placements[pid].status != NoShow
    requires Attended(db.log[(pid, day) := present], pid)
    ensures Inv(db.(log := db.log[(pid, day) := present]))
  {
    LogOneDay(db.log, pid, day, present);
  }

  lemma VerdictKeepsInv(db: Db, pid: Id, day: int, present: bool, s: Status, a: Db)
    requires Inv(db) && pid < |db.placements|
    requires SetStatus(db.(log := db.log[(pid, day) := present]), pid, s) == Ok(a)
    requires s == NoShow <==> !Attended(db.log[(pid, day) := present], pid)
    requires (db.placements[pid].status == NoShow && s != NoShow) ==> !Covered(db.placements, pid)
    requires Standing(db.placements[pid])
    ensures var b := Refresh(a, db.placements[pid].candidate);
      && Sound(b) && LogDecides(b.placements, b.log)
      && b.placements == Written(db.placements, pid, s) && b.box == db.box
  {
    LogOneDay(db.log, pid, day, present);
    WriteKeepsSound(db.(log := db.log[(pid, day) := present]), pid, s, a);
  }

  lemma LogKeepsInv(db: Db, pid: Id, day: int, present: bool, reasonGiven: bool, after: Db)
    requires Inv(db) && LogAttendance(db, pid, day, present, reasonGiven) == Ok(after)
    ensures Inv(after)
  {
    var p := db.placements[pid];
    var logged := db.(log := db.log[(pid, day) := present]);
    LogOneDay(db.log, pid, day, present);
    if Attended(logged.log, pid) && p.status != NoShow {
      LoggedDayKeepsInv(db, pid, day, present);
    } else if present {
      VerdictKeepsInv(db, pid, day, present, Active, SetStatus(logged, pid, Active).value);
      StayingLiveFits(db.placements, db.box, pid, Active);
    } else {
      StillUnattended(db, pid, day);
      VerdictKeepsInv(db, pid, day, present, NoShow, SetStatus(logged, pid, NoShow).value);
      CallOffFits(db.placements, db.box, pid, NoShow);
    }
  }

  /** Another absence on a no-show leaves it unattended. */
  lemma StillUnattended(db: Db, pid: Id, day: int)
    requires LogDecides(db.placements, db.log) && pid < |db.placements|
    ensures db.placements[pid].status == NoShow ==> !Attended(db.log[(pid, day) := false], pid)
  {
    var after := db.log[(pid, day) := false];
    if Attended(after, pid) {
      var k :| k in after && k.0 == pid && after[k];
      assert k in db.log && db.log[k];
    }
  }

  // ---- a request withdrawn -----------------------------------------------------------------------------

  /** Nobody past this row waits any more for their status. */
  ghost predicate SettledBut(db: Db, before: seq<Placement>, rid: Id, upTo: nat) {
    forall c :: 0 <= c < |db.people| && !StillToTell(before, rid, upTo, c) ==>
      Decided(db.people[c]) || db.people[c] == Derived(db.placements, db.members, db.results, c)
  }

  ghost predicate StillToTell(before: seq<Placement>, rid: Id, upTo: nat, c: Id) {
    exists i :: upTo <= i < |before| && Waiting(before[i], rid) && before[i].candidate == c
  }

  /** Mail about a row that is not reached yet may still be on its way. */
  ghost predicate FitsOrWaits(ps: seq<Placement>, before: seq<Placement>, rid: Id, upTo: nat, m: O.Message) {
    || Fits(ps, m)
    || (m.placement.Some? && upTo <= m.placement.value < |before| && Waiting(before[m.placement.value], rid))
  }

  ghost predicate MailSettledBut(db: Db, before: seq<Placement>, rid: Id, upTo: nat) {
    forall i :: 0 <= i < |db.box| ==>
      FitsOrWaits(db.placements, before, rid, upTo, db.box[i]) && O.HasTries(db.box[i]) && O.Uses(db.box[i].to, db.box[i].template)
  }

  lemma WaitingCancelledKeeps(db: Db, rid: Id)
    requires Inv(db)
    ensures var d := db.(placements := WithWaitingCancelled(db.placements, rid), cancelled := db.cancelled + {rid});
      && Rooted(d.requests, d.placements, d.people) && NoDoubleBooking(d.requests, d.placements)
      && Chained(d.placements) && OncePerRequest(d.placements) && OneStandingCover(d.placements)
      && LogDecides(d.placements, d.log)
      && SettledBut(d, db.placements, rid, 0) && MailSettledBut(d, db.placements, rid, 0)
  {
    var ps := WithWaitingCancelled(db.placements, rid);
    var d := db.(placements := ps, cancelled := db.cancelled + {rid});
    CancelledRowsKeepChains(db.placements, rid);
    forall i, j | 0 <= i < j < |ps| && Live(ps[i].status) && Live(ps[j].status)
      ensures !Collide(db.requests, ps[i], ps[j])
    {
      assert ps[i] == db.placements[i] && ps[j] == db.placements[j];
    }
    forall c | 0 <= c < |db.people| && !StillToTell(db.placements, rid, 0, c)
      ensures Decided(d.people[c]) || d.people[c] == Derived(d.placements, d.members, d.results, c)
    {
      WorkUntouched(db.placements, rid, c);
    }
    forall i | 0 <= i < |db.box| ensures FitsOrWaits(ps, db.placements, rid, 0, db.box[i]) {
      assert Fits(db.placements, db.box[i]);
    }
  }

  lemma CancelledRowsKeepChains(before: seq<Placement>, rid: Id)
    requires Chained(before) && OncePerRequest(before) && OneStandingCover(before)
    ensures var ps := WithWaitingCancelled(before, rid);
      Chained(ps) && OncePerRequest(ps) && OneStandingCover(ps)
  {
    var ps := WithWaitingCancelled(before, rid);
    forall i | 0 <= i < |ps| && ps[i].covers.Some? ensures IsCoverOf(ps, i, ps[i].covers.value) {
      assert IsCoverOf(before, i, before[i].covers.value);
    }
  }

  lemma WorkUntouched(before: seq<Placement>, rid: Id, c: Id)
    requires !StillToTell(before, rid, 0, c)
    ensures HasWork(WithWaitingCancelled(before, rid), c) <==> HasWork(before, c)
  {
    var ps := WithWaitingCancelled(before, rid);
    if HasWork(before, c) {
      var i :| 0 <= i < |before| && before[i].candidate == c && (before[i].status == Accepted || before[i].status == Active);
      assert ps[i] == before[i];
    }
  }

  /** One worker told: their mail and their status are settled. */
  lemma OneToldSettles(d: Db, before: seq<Placement>, rid: Id, i: nat, n: Notice)
    requires i < |before| == |d.placements| && Waiting(before[i], rid)
    requires d.placements[i].status == Cancelled && d.placements[i].candidate == before[i].candidate
    requires MailSettledBut(d, before, rid, i) && SettledBut(d, before, rid, i)
    ensures var e := Refresh(ToCandidate(OnEnded(d, i), i, O.PlacementCancelled, n.smartphone, n.now), before[i].candidate);
      MailSettledBut(e, before, rid, i + 1) && SettledBut(e, before, rid, i + 1)
  {
    var off := OnEnded(d, i);
    forall k | 0 <= k < |off.box|
      ensures FitsOrWaits(off.placements, before, rid, i + 1, off.box[k]) && O.HasTries(off.box[k]) && O.Uses(off.box[k].to, off.box[k].template)
    {
      assert FitsOrWaits(d.placements, before, rid, i, d.box[k]);
    }
    var told := ToCandidate(off, i, O.PlacementCancelled, n.smartphone, n.now);
    forall c | 0 <= c < |told.people| && !StillToTell(before, rid, i + 1, c) && c != before[i].candidate
      ensures Decided(told.people[c]) || told.people[c] == Derived(told.placements, told.members, told.results, c)
    {
      assert !StillToTell(before, rid, i, c);
    }
  }

  lemma NobodyToTell(d: Db, before: seq<Placement>, rid: Id, i: nat)
    requires i < |before| && !Waiting(before[i], rid)
    requires MailSettledBut(d, before, rid, i) && SettledBut(d, before, rid, i)
    ensures MailSettledBut(d, before, rid, i + 1) && SettledBut(d, before, rid, i + 1)
  {
    forall c | 0 <= c < |d.people| && !StillToTell(before, rid, i + 1, c)
      ensures Decided(d.people[c]) || d.people[c] == Derived(d.placements, d.members, d.results, c)
    {
      assert !StillToTell(before, rid, i, c);
    }
    forall k | 0 <= k < |d.box| ensures FitsOrWaits(d.placements, before, rid, i + 1, d.box[k]) {
      assert FitsOrWaits(d.placements, before, rid, i, d.box[k]);
    }
  }

  lemma {:induction false} TellingSettles(d: Db, before: seq<Placement>, rid: Id, upTo: nat, n: Notice)
    requires upTo <= |before| && d.placements == WithWaitingCancelled(before, rid)
    requires MailSettledBut(d, before, rid, 0) && SettledBut(d, before, rid, 0)
    ensures var e := TellCancelled(d, before, rid, upTo, n);
      && MailSettledBut(e, before, rid, upTo) && SettledBut(e, before, rid, upTo)
      && |e.people| == |d.people|
      && e.(people := d.people, box := d.box) == d
  {
    if upTo > 0 {
      TellingSettles(d, before, rid, upTo - 1, n);
      var e := TellCancelled(d, before, rid, upTo - 1, n);
      if Waiting(before[upTo - 1], rid) {
        OneToldSettles(e, before, rid, upTo - 1, n);
      } else {
        NobodyToTell(e, before, rid, upTo - 1);
      }
    }
  }

  lemma AllTold(e: Db, before: seq<Placement>, rid: Id)
    requires |before| == |e.placements|
    requires MailSettledBut(e, before, rid, |before|) && SettledBut(e, before, rid, |before|)
    ensures MailFits(e.placements, e.box) && StatusDerived(e.placements, e.members, e.results, e.people)
  {
    forall k | 0 <= k < |e.box| ensures Fits(e.placements, e.box[k]) {
      assert FitsOrWaits(e.placements, before, rid, |before|, e.box[k]);
    }
    forall c | 0 <= c < |e.people|
      ensures Decided(e.people[c]) || e.people[c] == Derived(e.placements, e.members, e.results, c)
    {
      assert !StillToTell(before, rid, |before|, c);
    }
  }

  lemma CancelKeepsInv(db: Db, rid: Id, reasonGiven: bool, employer: Option<Id>, n: Notice, after: Db)
    requires Inv(db) && CancelRequest(db, rid, reasonGiven, employer, n) == Ok(after)
    ensures Inv(after)
  {
    var d := db.(placements := WithWaitingCancelled(db.placements, rid), cancelled := db.cancelled + {rid});
    WaitingCancelledKeeps(db, rid);
    TellingSettles(d, db.placements, rid, |db.placements|, n);
    AllTold(after, db.placements, rid);
  }

  // ---- what else feeds the status -------------------------------------------------------------------------

  lemma AddMemberKeepsInv(db: Db, cohort: Id, cid: Id, after: Db)
    requires Inv(db) && AddMember(db, cohort, cid) == Ok(after)
    ensures Inv(after)
  {
    forall c: Id ensures HasFinishedCohort(after.members, c) <==> HasFinishedCohort(db.members, c) {
      if HasFinishedCohort(db.members, c) {
        var k :| k in db.members && k.1 == c && db.members[k] == Some(CompletedCohort);
        assert k in after.members && after.members[k] == Some(CompletedCohort);
      }
    }
  }

  lemma OutcomeKeepsInv(db: Db, cohort: Id, cid: Id, outcome: CohortOutcome, after: Db)
    requires Inv(db) && RecordOutcome(db, cohort, cid, outcome) == Ok(after)
    ensures Inv(after)
  {
    var d := db.(members := db.members[(cohort, cid) := Some(outcome)]);
    forall c: Id | c != cid ensures HasFinishedCohort(d.members, c) <==> HasFinishedCohort(db.members, c) {
      if HasFinishedCohort(db.members, c) {
        var k :| k in db.members && k.1 == c && db.members[k] == Some(CompletedCohort);
        assert k in d.members && d.members[k] == Some(CompletedCohort);
      }
    }
    assert DerivedBut(d, {cid});
    RefreshSettles(d, cid, {cid});
  }

  lemma ResultKeepsInv(db: Db, cid: Id, after: Db)
    requires Inv(db) && RecordResult(db, cid) == Ok(after)
    ensures Inv(after)
  {
    ResultKeepsDerived(db.placements, db.members, db.results, db.people, cid);
  }

  lemma ResultKeepsDerived(ps: seq<Placement>, members: map<(Id, Id), Option<CohortOutcome>>, results: seq<Id>,
                           people: seq<PersonStatus>, cid: Id)
    requires StatusDerived(ps, members, results, people) && cid < |people|
    ensures StatusDerived(ps, members, results + [cid],
                          if people[cid] == Registered then people[cid := Assessed] else people)
  {
    var more := results + [cid];
    forall c: Id ensures c in more <==> c in results || c == cid { }
  }

  lemma RegisterKeepsInv(db: Db, after: Db)
    requires Inv(db) && Register(db) == Ok(after)
    ensures Inv(after)
  {
    var c := |db.people|;
    assert !HasWork(db.placements, c) && !HasFinishedCohort(db.members, c) && c !in db.results;
  }

  lemma PostKeepsInv(db: Db, r: WorkRequest, after: Db)
    requires Inv(db) && Post(db, r) == Ok(after)
    ensures Inv(after)
  {
    forall i, j | 0 <= i < j < |db.placements| && Live(db.placements[i].status) && Live(db.placements[j].status)
      ensures !Collide(after.requests, db.placements[i], db.placements[j])
    {
      assert !Collide(db.requests, db.placements[i], db.placements[j]);
    }
  }

  lemma EraseKeepsInv(db: Db, cid: Id, after: Db)
    requires Inv(db) && Erase(db, cid) == Ok(after)
    ensures Inv(after)
  {
  }

  // ---- mail asked, sent, put off, called off ---------------------------------------------------------------------

  lemma ChaseKeepsInv(db: Db, pid: Id, contact: Option<Id>, today: int, now: int, after: Db)
    requires Inv(db) && Chase(db, pid, contact, today, now) == Ok(after)
    ensures Inv(after)
  {
    LiveMailFits(db, pid, O.AttendanceUnconfirmed, Notice(now, false, contact, false), now);
  }

  lemma DeliverKeepsInv(db: Db, row: Id, consents: seq<O.Consent>, phone: bool, reply: O.Reply, moment: int, after: Db)
    requires Inv(db) && Deliver(db, row, consents, phone, reply, moment) == Ok(after)
    ensures Inv(after)
  {
    O.AnAttemptIsPaidFor(db.box[row], consents, phone, reply, moment);
    assert Fits(db.placements, db.box[row]);
  }

  lemma DeferKeepsInv(db: Db, moment: int, after: Db)
    requires Inv(db) && Defer(db, moment) == Ok(after)
    ensures Inv(after)
  {
    forall i | 0 <= i < |after.box| ensures Queues(after.placements, after.box[i]) {
      assert Fits(db.placements, db.box[i]);
    }
  }

  lemma StopKeepsInv(db: Db, cid: Id, after: Db)
    requires Inv(db) && StopTo(db, cid) == Ok(after)
    ensures Inv(after)
  {
    forall i | 0 <= i < |after.box| ensures Queues(after.placements, after.box[i]) {
      assert Fits(db.placements, db.box[i]);
    }
  }

  // ---- any operation -----------------------------------------------------------------------------------------

  lemma DoKeepsInv(db: Db, op: Op, after: Db)
    requires Inv(db) && Do(db, op) == Ok(after)
    ensures Inv(after)
  {
    match op
    case DoOffer(rid, facts, n) => WriteOfferKeepsInv(db, rid, facts.id, n, after);
    case DoWriteOffer(rid, cid, n) => WriteOfferKeepsInv(db, rid, cid, n, after);
    case DoRespond(pid, accepted, n) => RespondKeepsInv(db, pid, accepted, n, after);
    case DoStart(pid, day, n) => StartKeepsInv(db, pid, day, n, after);
    case DoComplete(pid, endedOn, today) => EndKeepsInv(db, pid, {Active}, Completed, endedOn, today, after);
    case DoTerminate(pid, _, endedOn, today) => EndKeepsInv(db, pid, {Accepted, Active}, Terminated, endedOn, today, after);
    case DoChase(pid, contact, today, now) => ChaseKeepsInv(db, pid, contact, today, now, after);
    case DoLog(pid, day, present, reasonGiven) => LogKeepsInv(db, pid, day, present, reasonGiven, after);
    case DoReplace(failed, facts, pay, n) => CoverKeepsInv(db, failed, facts.id, pay, n, after);
    case DoCancel(rid, reasonGiven, employer, n) => CancelKeepsInv(db, rid, reasonGiven, employer, n, after);
    case DoAddMember(cohort, cid) => AddMemberKeepsInv(db, cohort, cid, after);
    case DoOutcome(cohort, cid, outcome) => OutcomeKeepsInv(db, cohort, cid, outcome, after);
    case DoResult(cid) => ResultKeepsInv(db, cid, after);
    case DoRegister => RegisterKeepsInv(db, after);
    case DoPost(r) => PostKeepsInv(db, r, after);
    case DoErase(cid) => EraseKeepsInv(db, cid, after);
    case DoDeliver(row, consents, phone, reply, moment) => DeliverKeepsInv(db, row, consents, phone, reply, moment, after);
    case DoDefer(moment) => DeferKeepsInv(db, moment, after);
    case DoStop(cid) => StopKeepsInv(db, cid, after);
  }

  lemma StepKeepsInv(db: Db, op: Op)
    requires Inv(db)
    ensures Inv(Step(db, op))
  {
    match Do(db, op)
    case Ok(after) => DoKeepsInv(db, op, after);
    case Err(_) =>
  }
}
