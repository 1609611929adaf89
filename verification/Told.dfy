/** Who is told what: every offer is sent once to the person it was made to, everybody whose
    placement is cancelled hears of it once, and a start lays down its check-ins. */
module Told {
  import opened Base
  import opened Matching
  import opened Lifecycle
  import opened Invariants
  import opened Runs
  import O = Outbox

  /** A message of this kind about this placement has ever been queued. */
  ghost predicate HasMail(box: seq<O.Message>, p: Id, t: O.Template) {
    exists i :: 0 <= i < |box| && box[i].placement == Some(p) && box[i].template == t
  }

  /** Messages about a placement go to its own candidate, and once-only ones exist once. */
  ghost predicate Tidy(ps: seq<Placement>, box: seq<O.Message>) {
    && (forall i :: 0 <= i < |box| && box[i].placement.Some? ==> Addressed(ps, box[i]))
    && OnceOnly(box)
  }

  ghost predicate Addressed(ps: seq<Placement>, m: O.Message)
    requires m.placement.Some?
  {
    m.placement.value < |ps| && (m.to.Candidate? ==> m.to.id == ps[m.placement.value].candidate)
  }

  ghost predicate OnceOnly(box: seq<O.Message>) {
    forall i, j :: 0 <= i < j < |box| ==> !Repeats(box[i], box[j])
  }

  /** The same once-only message about the same placement. */
  predicate Repeats(a: O.Message, b: O.Message) {
    a.placement.Some? && a.placement == b.placement && a.template == b.template && O.OncePerPlacement(a.template)
  }

  predicate OfTheStart(t: O.Template) { t.FollowUp? || t.ShiftReminder? }

  ghost predicate SaysWhatHappened(ps: seq<Placement>, box: seq<O.Message>) {
    forall p: Id :: p < |ps| ==> ToldOf(ps[p].status, box, p)
  }

  /** The mail a placement has had, as its status tells it. */
  ghost predicate ToldOf(s: Status, box: seq<O.Message>, p: Id) {
    && HasMail(box, p, O.PlacementOffer)
    && (HasMail(box, p, O.PlacementCancelled) <==> s == Cancelled)
    && (s in {Offered, Accepted} ==> forall t :: OfTheStart(t) ==> !HasMail(box, p, t))
    && (s == Offered ==> !HasMail(box, p, O.PlacementContract))
  }

  ghost predicate Told(db: Db) {
    Tidy(db.placements, db.box) && SaysWhatHappened(db.placements, db.box)
  }

  // ---- what queueing and calling off do to it ----------------------------------------------

  /** The same mail as before, with this kind of message added about this placement. */
  ghost predicate Adds(before: seq<O.Message>, after: seq<O.Message>, p: Id, kinds: set<O.Template>) {
    forall q: Id, t :: HasMail(after, q, t) <==> HasMail(before, q, t) || (q == p && t in kinds)
  }

  ghost predicate SameMail(before: seq<O.Message>, after: seq<O.Message>) {
    && |after| == |before|
    && (forall i :: 0 <= i < |before| ==>
          after[i].to == before[i].to && after[i].placement == before[i].placement && after[i].template == before[i].template)
  }

  lemma SameMailSays(ps: seq<Placement>, before: seq<O.Message>, after: seq<O.Message>)
    requires Tidy(ps, before) && SameMail(before, after)
    ensures Tidy(ps, after) && forall q: Id, t :: HasMail(after, q, t) <==> HasMail(before, q, t)
  {
    forall q: Id, t ensures HasMail(after, q, t) <==> HasMail(before, q, t) {
      if HasMail(before, q, t) {
        var i :| 0 <= i < |before| && before[i].placement == Some(q) && before[i].template == t;
        assert after[i].placement == Some(q);
      }
    }
  }

  lemma PostAdds(ps: seq<Placement>, box: seq<O.Message>, m: O.Message)
    requires Tidy(ps, box) && m.placement.Some? && Addressed(ps, m)
    ensures Tidy(ps, O.Post(box, m)) && Adds(box, O.Post(box, m), m.placement.value, {m.template})
  {
    var after := O.Post(box, m);
    forall q: Id, t ensures HasMail(after, q, t) <==> HasMail(box, q, t) || (q == m.placement.value && t == m.template) {
      if HasMail(box, q, t) {
        var i :| 0 <= i < |box| && box[i].placement == Some(q) && box[i].template == t;
        assert after[i] == box[i];
      }
      if after != box { assert after[|box|] == m; }
    }
  }

  lemma ToCandidateAdds(db: Db, pid: Id, t: O.Template, smartphone: bool, due: int)
    requires Tidy(db.placements, db.box) && pid < |db.placements|
    ensures var after := ToCandidate(db, pid, t, smartphone, due);
      Tidy(after.placements, after.box) && Adds(db.box, after.box, pid, {t})
  {
    PostAdds(db.placements, db.box, O.NewMessage(O.Recipient.Candidate(db.placements[pid].candidate), Some(pid), t,
                                                 if smartphone then O.WhatsApp else O.Sms, due));
  }

  lemma ToContactAdds(db: Db, pid: Id, t: O.Template, contact: Option<Id>, due: int)
    requires Tidy(db.placements, db.box) && pid < |db.placements|
    ensures var after := ToContact(db, pid, t, contact, due);
      Tidy(after.placements, after.box) && Adds(db.box, after.box, pid, if contact.Some? then {t} else {})
  {
    if contact.Some? {
      PostAdds(db.placements, db.box, O.NewMessage(O.Contact(contact.value), Some(pid), t, O.WhatsApp, due));
    }
  }

  lemma OfferedAdds(db: Db, pid: Id, n: Notice)
    requires Tidy(db.placements, db.box) && pid < |db.placements|
    ensures var after := OnOffered(db, pid, n);
      && Tidy(after.placements, after.box)
      && Adds(db.box, after.box, pid, {O.PlacementOffer} + if n.contact.Some? then {O.EmployerWorkerAssigned} else {})
  {
    ToCandidateAdds(db, pid, O.PlacementOffer, n.smartphone, n.now);
    ToContactAdds(ToCandidate(db, pid, O.PlacementOffer, n.smartphone, n.now), pid, O.EmployerWorkerAssigned, n.contact, n.now);
  }

  // ---- offers ------------------------------------------------------------------------------------

  /** A row was appended and what its offer sends was added. */
  lemma NewRowIsTold(db: Db, row: Placement, box: seq<O.Message>, kinds: set<O.Template>)
    requires Told(db) && row.status == Offered
    requires Tidy(db.placements + [row], box) && Adds(db.box, box, |db.placements|, kinds)
    requires O.PlacementOffer in kinds && O.PlacementCancelled !in kinds && O.PlacementContract !in kinds
    requires forall t :: t in kinds ==> !OfTheStart(t)
    ensures SaysWhatHappened(db.placements + [row], box)
  {
    var p := |db.placements|;
    assert forall t :: !HasMail(db.box, p, t);
    forall q: Id | q < p ensures ToldOf(db.placements[q].status, box, q) {
      assert ToldOf(db.placements[q].status, db.box, q);
    }
  }

  lemma MoreRowsStayTidy(ps: seq<Placement>, row: Placement, box: seq<O.Message>)
    requires Tidy(ps, box)
    ensures Tidy(ps + [row], box)
  {
    forall i | 0 <= i < |box| && box[i].placement.Some? ensures Addressed(ps + [row], box[i]) {
      assert Addressed(ps, box[i]);
    }
  }

  lemma WriteOfferTells(db: Db, rid: Id, cid: Id, n: Notice, after: Db)
    requires Told(db) && WriteOffer(db, rid, cid, n) == Ok(after)
    ensures Told(after)
  {
    var row := OfferRow(db, rid, cid);
    var d := Insert(db, row).value;
    MoreRowsStayTidy(db.placements, row, db.box);
    OfferedAdds(d, |db.placements|, n);
    NewRowIsTold(db, row, after.box, {O.PlacementOffer} + if n.contact.Some? then {O.EmployerWorkerAssigned} else {});
  }

  function CoverKinds(db: Db, failed: Id, n: Notice): set<O.Template> {
    {O.PlacementOffer}
    + (if n.contact.Some? then {O.EmployerWorkerAssigned} else {})
    + (if n.contact.Some? && exists k :: k in db.log && k.0 == failed && !db.log[k] then {O.EmployerCoverSent} else {})
  }

  lemma CoverSentAdds(db: Db, failed: Id, pid: Id, n: Notice)
    requires Tidy(db.placements, db.box) && pid < |db.placements|
    ensures var after := TellOfCover(db, failed, pid, n);
      Tidy(after.placements, after.box) && Adds(db.box, after.box, pid, CoverKinds(db, failed, n))
  {
    OfferedAdds(db, pid, n);
    ToContactAdds(OnOffered(db, pid, n), pid, O.EmployerCoverSent, n.contact, n.now);
  }

  lemma CoverTells(db: Db, failed: Id, cid: Id, pay: Option<int>, n: Notice, after: Db)
    requires Told(db) && failed < |db.placements| && CoverSent(db, failed, cid, pay, n) == Ok(after)
    ensures Told(after)
  {
    var row, pid := CoverRow(db, failed, cid, pay), |db.placements|;
    var d := Insert(db, row).value;
    MoreRowsStayTidy(db.placements, row, db.box);
    CoverSentAdds(d, failed, pid, n);
    NewRowIsTold(db, row, after.box, CoverKinds(d, failed, n));
  }

  // ---- one status moved --------------------------------------------------------------------------

  /** One status moved, and what was added about it agrees with where it went. */
  lemma MovedRowIsTold(db: Db, pid: Id, s: Status, box: seq<O.Message>, kinds: set<O.Template>)
    requires Told(db) && pid < |db.placements|
    requires Adds(db.box, box, pid, kinds) && O.PlacementCancelled !in kinds
    requires (s == Cancelled) == (db.placements[pid].status == Cancelled)
    requires s in {Offered, Accepted} ==>
      db.placements[pid].status in {Offered, Accepted} && forall t :: t in kinds ==> !OfTheStart(t)
    requires s == Offered ==> db.placements[pid].status == Offered && O.PlacementContract !in kinds
    ensures SaysWhatHappened(db.placements[pid := db.placements[pid].(status := s)], box)
  {
    forall q: Id | q < |db.placements|
      ensures ToldOf(if q == pid then s else db.placements[q].status, box, q)
    {
      assert ToldOf(db.placements[q].status, db.box, q);
    }
  }

  lemma MovedRowStaysTidy(ps: seq<Placement>, pid: Id, s: Status, box: seq<O.Message>)
    requires Tidy(ps, box) && pid < |ps|
    ensures Tidy(ps[pid := ps[pid].(status := s)], box)
  {
    forall i | 0 <= i < |box| && box[i].placement.Some? ensures Addressed(ps[pid := ps[pid].(status := s)], box[i]) {
      assert Addressed(ps, box[i]);
    }
  }

  lemma RespondTells(db: Db, pid: Id, accepted: bool, n: Notice, after: Db)
    requires Told(db) && Respond(db, pid, accepted, n) == Ok(after)
    ensures Told(after)
  {
    var s := if accepted then Accepted else Declined;
    var b := Refresh(SetStatus(db, pid, s).value, db.placements[pid].candidate);
    MovedRowStaysTidy(db.placements, pid, s, db.box);
    if accepted && n.contract {
      ToCandidateAdds(b, pid, O.PlacementContract, n.smartphone, n.now);
      MovedRowIsTold(db, pid, s, after.box, {O.PlacementContract});
    } else {
      SameMailSays(b.placements, db.box, after.box);
      MovedRowIsTold(db, pid, s, after.box, {});
    }
  }

  lemma EndTells(db: Db, pid: Id, from: set<Status>, to: Status, endedOn: Option<int>, today: int, after: Db)
    requires Told(db) && End(db, pid, from, to, endedOn, today) == Ok(after)
    requires from <= {Accepted, Active} && to !in {Offered, Accepted, Cancelled}
    ensures Told(after)
  {
    MovedRowStaysTidy(db.placements, pid, to, db.box);
    SameMailSays(after.placements, db.box, after.box);
    assert db.placements[pid].status in {Accepted, Active};
    MovedRowIsTold(db, pid, to, after.box, {});
  }

  /** What logging a day leaves: at most one status moved, and the same mail. */
  ghost predicate Logs(db: Db, pid: Id, s: Status, after: Db) {
    && pid < |db.placements| && db.placements[pid].status in {Accepted, Active, NoShow} && s in {Active, NoShow}
    && SameMail(db.box, after.box)
    && (after.placements == db.placements || after.placements == db.placements[pid := db.placements[pid].(status := s)])
  }

  lemma LogLogs(db: Db, pid: Id, day: int, present: bool, reasonGiven: bool, after: Db)
    requires LogAttendance(db, pid, day, present, reasonGiven) == Ok(after)
    ensures Logs(db, pid, if present then Active else NoShow, after)
  {
  }

  lemma LogTells(db: Db, pid: Id, s: Status, after: Db)
    requires Told(db) && Logs(db, pid, s, after)
    ensures Told(after)
  {
    if after.placements == db.placements {
      UnmovedStaysTold(db, after);
    } else {
      SameMailSays(db.placements, db.box, after.box);
      MovedRowStaysTidy(db.placements, pid, s, after.box);
      MovedRowIsTold(db, pid, s, after.box, {});
    }
  }

  // ---- starting ------------------------------------------------------------------------------------

  function CheckInDay(c: O.Checkpoint): int {
    match c case Day1 => 1 case Week1 => 7 case Day30 => 30 case Day90 => 90
  }

  const CHECK_INS: set<O.Template> := {O.FollowUp(O.Day1), O.FollowUp(O.Week1), O.FollowUp(O.Day30), O.FollowUp(O.Day90)}

  function StartKinds(startedOn: int, now: int): set<O.Template> {
    CHECK_INS + if O.AtKigali(startedOn - 1, 18 * O.HOUR) <= now then {} else {O.ShiftReminder}
  }

  lemma StartedAdds(db: Db, pid: Id, startedOn: int, n: Notice)
    requires Tidy(db.placements, db.box) && pid < |db.placements|
    ensures var after := OnStarted(db, pid, startedOn, n);
      && Tidy(after.placements, after.box)
      && Adds(db.box, after.box, pid, StartKinds(startedOn, n.now))
  {
    var reminderAt := O.AtKigali(startedOn - 1, 18 * O.HOUR);
    ToCandidateAdds(db, pid, O.ShiftReminder, n.smartphone, reminderAt);
    var a := if reminderAt <= n.now then db else ToCandidate(db, pid, O.ShiftReminder, n.smartphone, reminderAt);
    CheckInsAdd(a, pid, startedOn, n.smartphone);
  }

  function WithCheckIns(db: Db, pid: Id, startedOn: int, smartphone: bool): Db
    requires pid < |db.placements|
  {
    var b := ToCandidate(db, pid, O.FollowUp(O.Day1), smartphone, O.AtKigali(startedOn + 1, 9 * O.HOUR));
    var c := ToCandidate(b, pid, O.FollowUp(O.Week1), smartphone, O.AtKigali(startedOn + 7, 9 * O.HOUR));
    var d := ToCandidate(c, pid, O.FollowUp(O.Day30), smartphone, O.AtKigali(startedOn + 30, 9 * O.HOUR));
    ToCandidate(d, pid, O.FollowUp(O.Day90), smartphone, O.AtKigali(startedOn + 90, 9 * O.HOUR))
  }

  lemma CheckInsAdd(db: Db, pid: Id, startedOn: int, smartphone: bool)
    requires Tidy(db.placements, db.box) && pid < |db.placements|
    ensures var after := WithCheckIns(db, pid, startedOn, smartphone);
      Tidy(after.placements, after.box) && Adds(db.box, after.box, pid, CHECK_INS)
  {
    ToCandidateAdds(db, pid, O.FollowUp(O.Day1), smartphone, O.AtKigali(startedOn + 1, 9 * O.HOUR));
    var b := ToCandidate(db, pid, O.FollowUp(O.Day1), smartphone, O.AtKigali(startedOn + 1, 9 * O.HOUR));
    ToCandidateAdds(b, pid, O.FollowUp(O.Week1), smartphone, O.AtKigali(startedOn + 7, 9 * O.HOUR));
    var c := ToCandidate(b, pid, O.FollowUp(O.Week1), smartphone, O.AtKigali(startedOn + 7, 9 * O.HOUR));
    ToCandidateAdds(c, pid, O.FollowUp(O.Day30), smartphone, O.AtKigali(startedOn + 30, 9 * O.HOUR));
    var d := ToCandidate(c, pid, O.FollowUp(O.Day30), smartphone, O.AtKigali(startedOn + 30, 9 * O.HOUR));
    ToCandidateAdds(d, pid, O.FollowUp(O.Day90), smartphone, O.AtKigali(startedOn + 90, 9 * O.HOUR));
  }

  lemma StartedRowIsTold(db: Db, b: Db, pid: Id, startedOn: int, n: Notice)
    requires Told(db) && pid < |db.placements| && db.placements[pid].status in {Offered, Accepted}
    requires b.placements == db.placements[pid := db.placements[pid].(status := Active)] && b.box == db.box
    ensures Told(OnStarted(b, pid, startedOn, n))
  {
    MovedRowStaysTidy(db.placements, pid, Active, db.box);
    StartedAdds(b, pid, startedOn, n);
    StartedKeepsTables(b, pid, startedOn, n);
    MovedRowIsTold(db, pid, Active, OnStarted(b, pid, startedOn, n).box, StartKinds(startedOn, n.now));
  }

  lemma StartTells(db: Db, pid: Id, startedOn: int, n: Notice, after: Db)
    requires Told(db) && Start(db, pid, startedOn, n) == Ok(after)
    ensures Told(after)
  {
    StartedRowIsTold(db, Begun(SetStatus(db, pid, Active).value, pid, startedOn), pid, startedOn, n);
  }

  lemma ChaseTells(db: Db, pid: Id, contact: Option<Id>, today: int, now: int, after: Db)
    requires Told(db) && Chase(db, pid, contact, today, now) == Ok(after)
    ensures Told(after)
  {
    var s := db.placements[pid].status;
    ToContactAdds(db, pid, O.AttendanceUnconfirmed, contact, now);
    MovedRowIsTold(db, pid, s, after.box, if contact.Some? then {O.AttendanceUnconfirmed} else {});
    assert db.placements[pid := db.placements[pid].(status := s)] == db.placements;
  }

  // ---- a request withdrawn --------------------------------------------------------------------------

  /** Only cancellation notices are added, and only for the rows reached so far. */
  ghost predicate NoticesUpTo(before: seq<O.Message>, after: seq<O.Message>, ps: seq<Placement>, rid: Id, upTo: nat)
    requires upTo <= |ps|
  {
    forall q: Id, t :: HasMail(after, q, t) <==>
      HasMail(before, q, t) || (t == O.PlacementCancelled && q < upTo && Waiting(ps[q], rid))
  }

  lemma OneNoticeGoesOut(start: seq<O.Message>, e: Db, before: seq<Placement>, rid: Id, i: nat, n: Notice)
    requires i < |before| == |e.placements| && Waiting(before[i], rid)
    requires Tidy(e.placements, e.box) && NoticesUpTo(start, e.box, before, rid, i)
    ensures var told := ToCandidate(OnEnded(e, i), i, O.PlacementCancelled, n.smartphone, n.now);
      Tidy(told.placements, told.box) && NoticesUpTo(start, told.box, before, rid, i + 1)
  {
    SameMailSays(e.placements, e.box, O.CallOffFor(e.box, i));
    ToCandidateAdds(OnEnded(e, i), i, O.PlacementCancelled, n.smartphone, n.now);
  }

  lemma NoNoticeGoesOut(start: seq<O.Message>, box: seq<O.Message>, before: seq<Placement>, rid: Id, i: nat)
    requires i < |before| && !Waiting(before[i], rid) && NoticesUpTo(start, box, before, rid, i)
    ensures NoticesUpTo(start, box, before, rid, i + 1)
  {
  }

  lemma {:induction false} NoticesGoOut(d: Db, before: seq<Placement>, rid: Id, upTo: nat, n: Notice)
    requires upTo <= |before| == |d.placements| && Tidy(d.placements, d.box)
    ensures var e := TellCancelled(d, before, rid, upTo, n);
      Tidy(e.placements, e.box) && NoticesUpTo(d.box, e.box, before, rid, upTo)
    decreases upTo
  {
    if upTo > 0 {
      NoticesGoOut(d, before, rid, upTo - 1, n);
      if Waiting(before[upTo - 1], rid) {
        OneNoticeGoesOut(d.box, TellCancelled(d, before, rid, upTo - 1, n), before, rid, upTo - 1, n);
      } else {
        NoNoticeGoesOut(d.box, TellCancelled(d, before, rid, upTo - 1, n).box, before, rid, upTo - 1);
      }
    }
  }

  lemma CancelTells(db: Db, rid: Id, reasonGiven: bool, employer: Option<Id>, n: Notice, after: Db)
    requires Told(db) && CancelRequest(db, rid, reasonGiven, employer, n) == Ok(after)
    ensures Told(after)
  {
    var ps := WithWaitingCancelled(db.placements, rid);
    var d := db.(placements := ps, cancelled := db.cancelled + {rid});
    forall i | 0 <= i < |db.box| && db.box[i].placement.Some? ensures Addressed(ps, db.box[i]) {
      assert Addressed(db.placements, db.box[i]);
    }
    NoticesGoOut(d, db.placements, rid, |db.placements|, n);
    forall q: Id | q < |ps| ensures ToldOf(ps[q].status, after.box, q) {
      assert ToldOf(db.placements[q].status, db.box, q);
    }
  }

  // ---- any operation, any run --------------------------------------------------------------------------

  lemma UnmovedStaysTold(db: Db, after: Db)
    requires Told(db) && after.placements == db.placements && SameMail(db.box, after.box)
    ensures Told(after)
  {
    SameMailSays(db.placements, db.box, after.box);
    forall q: Id | q < |db.placements| ensures ToldOf(db.placements[q].status, after.box, q) {
      assert ToldOf(db.placements[q].status, db.box, q);
    }
  }

  lemma DeliveryKeepsMail(db: Db, row: Id, consents: seq<O.Consent>, phone: bool, reply: O.Reply, moment: int, after: Db)
    requires Deliver(db, row, consents, phone, reply, moment) == Ok(after)
    ensures SameMail(db.box, after.box)
  {
  }

  lemma StepTells(db: Db, op: Op)
    requires Told(db)
    ensures Told(Step(db, op))
  {
    if Do(db, op).Ok? {
      var after := Do(db, op).value;
      match op
      case DoOffer(rid, facts, n) => WriteOfferTells(db, rid, facts.id, n, after);
      case DoWriteOffer(rid, cid, n) => WriteOfferTells(db, rid, cid, n, after);
      case DoRespond(pid, accepted, n) => RespondTells(db, pid, accepted, n, after);
      case DoStart(pid, day, n) => StartTells(db, pid, day, n, after);
      case DoComplete(pid, endedOn, today) => EndTells(db, pid, {Active}, Completed, endedOn, today, after);
      case DoTerminate(pid, _, endedOn, today) => EndTells(db, pid, {Accepted, Active}, Terminated, endedOn, today, after);
      case DoChase(pid, contact, today, now) => ChaseTells(db, pid, contact, today, now, after);
      case DoLog(pid, day, present, reasonGiven) =>
        LogLogs(db, pid, day, present, reasonGiven, after);
        LogTells(db, pid, if present then Active else NoShow, after);
      case DoReplace(failed, facts, pay, n) => CoverTells(db, failed, facts.id, pay, n, after);
      case DoCancel(rid, reasonGiven, employer, n) => CancelTells(db, rid, reasonGiven, employer, n, after);
      case DoDeliver(row, consents, phone, reply, moment) =>
        DeliveryKeepsMail(db, row, consents, phone, reply, moment, after);
        UnmovedStaysTold(db, after);
      case _ => UnmovedStaysTold(db, after);
    }
  }

  lemma {:induction false} RunTells(db: Db, ops: seq<Op>)
    requires Told(db)
    ensures Told(Run(db, ops))
    decreases |ops|
  {
    if ops != [] {
      StepTells(db, ops[0]);
      RunTells(Step(db, ops[0]), ops[1..]);
    }
  }

  lemma ReachableIsTold(db: Db)
    requires Reachable(db)
    ensures Told(db)
  {
    var ops :| Run(Empty, ops) == db;
    RunTells(Empty, ops);
  }

  // ---- the claims ------------------------------------------------------------------------------------------

  /** Who a message of this kind about this placement is for: its candidate, or some contact. */
  predicate IsFor(to: O.Recipient, p: Placement, t: O.Template) {
    if O.RequiresConsent(t) then to == O.Recipient.Candidate(p.candidate) else to.Contact?
  }

  /** This row is the only message of its kind about its placement, and goes to whom it is for. */
  ghost predicate TheOne(db: Db, i: nat, p: Id, t: O.Template) {
    && i < |db.box| && p < |db.placements|
    && db.box[i].placement == Some(p) && db.box[i].template == t && IsFor(db.box[i].to, db.placements[p], t)
    && (forall j :: 0 <= j < |db.box| && db.box[j].placement == Some(p) && db.box[j].template == t ==> j == i)
  }

  lemma MailIsTheOne(db: Db, p: Id, t: O.Template)
    requires Told(db) && MailFits(db.placements, db.box) && O.OncePerPlacement(t) && HasMail(db.box, p, t)
    ensures exists i :: TheOne(db, i, p, t)
  {
    var i :| 0 <= i < |db.box| && db.box[i].placement == Some(p) && db.box[i].template == t;
    assert Addressed(db.placements, db.box[i]) && Queues(db.placements, db.box[i]);
    assert TheOne(db, i, p, t);
  }

  /** In every reachable state each placement has had exactly one offer message, addressed to its
      own candidate; a placement is cancelled exactly when a notice of it was queued, and then
      there is exactly one, to the same candidate; and its employer has been asked at most once
      whether it was attended. */
  lemma EverybodyHearsOnce(db: Db, p: Id)
    requires Reachable(db) && p < |db.placements|
    ensures exists i :: TheOne(db, i, p, O.PlacementOffer)
    ensures db.placements[p].status == Cancelled <==> exists i :: TheOne(db, i, p, O.PlacementCancelled)
    ensures HasMail(db.box, p, O.AttendanceUnconfirmed) ==> exists i :: TheOne(db, i, p, O.AttendanceUnconfirmed)
  {
    ReachableIsTold(db);
    ReachableIsSound(db);
    if HasMail(db.box, p, O.AttendanceUnconfirmed) { MailIsTheOne(db, p, O.AttendanceUnconfirmed); }
    assert ToldOf(db.placements[p].status, db.box, p);
    MailIsTheOne(db, p, O.PlacementOffer);
    if db.placements[p].status == Cancelled { MailIsTheOne(db, p, O.PlacementCancelled); }
    if i :| TheOne(db, i, p, O.PlacementCancelled) { assert HasMail(db.box, p, O.PlacementCancelled); }
  }

  /** Queued now, to the placement's candidate, due then. */
  ghost predicate Scheduled(db: Db, p: Id, t: O.Template, due: int)
    requires p < |db.placements|
  {
    exists i :: 0 <= i < |db.box| && db.box[i].placement == Some(p) && db.box[i].template == t
      && db.box[i].to == O.Recipient.Candidate(db.placements[p].candidate)
      && db.box[i].status == O.Queued && db.box[i].due == due
  }

  lemma FreshMailIsScheduled(db: Db, pid: Id, t: O.Template, smartphone: bool, due: int)
    requires pid < |db.placements| && !HasMail(db.box, pid, t)
    ensures Scheduled(ToCandidate(db, pid, t, smartphone, due), pid, t, due)
    ensures forall u, at :: Scheduled(db, pid, u, at) ==> Scheduled(ToCandidate(db, pid, t, smartphone, due), pid, u, at)
  {
    var after := ToCandidate(db, pid, t, smartphone, due);
    assert after.box[|db.box|].template == t;
    forall u, at | Scheduled(db, pid, u, at) ensures Scheduled(after, pid, u, at) {
      var i :| 0 <= i < |db.box| && db.box[i].placement == Some(pid) && db.box[i].template == u
        && db.box[i].to == O.Recipient.Candidate(db.placements[pid].candidate)
        && db.box[i].status == O.Queued && db.box[i].due == at;
      assert after.box[i] == db.box[i];
    }
  }

  lemma CheckInsAreScheduled(db: Db, pid: Id, startedOn: int, smartphone: bool)
    requires pid < |db.placements| && Tidy(db.placements, db.box)
    requires forall c :: !HasMail(db.box, pid, O.FollowUp(c))
    ensures var after := WithCheckIns(db, pid, startedOn, smartphone);
      && after.placements == db.placements
      && (forall c :: Scheduled(after, pid, O.FollowUp(c), O.AtKigali(startedOn + CheckInDay(c), 9 * O.HOUR)))
      && (forall u, at :: Scheduled(db, pid, u, at) ==> Scheduled(after, pid, u, at))
  {
    FreshMailIsScheduled(db, pid, O.FollowUp(O.Day1), smartphone, O.AtKigali(startedOn + 1, 9 * O.HOUR));
    ToCandidateAdds(db, pid, O.FollowUp(O.Day1), smartphone, O.AtKigali(startedOn + 1, 9 * O.HOUR));
    var b := ToCandidate(db, pid, O.FollowUp(O.Day1), smartphone, O.AtKigali(startedOn + 1, 9 * O.HOUR));
    FreshMailIsScheduled(b, pid, O.FollowUp(O.Week1), smartphone, O.AtKigali(startedOn + 7, 9 * O.HOUR));
    ToCandidateAdds(b, pid, O.FollowUp(O.Week1), smartphone, O.AtKigali(startedOn + 7, 9 * O.HOUR));
    var c := ToCandidate(b, pid, O.FollowUp(O.Week1), smartphone, O.AtKigali(startedOn + 7, 9 * O.HOUR));
    FreshMailIsScheduled(c, pid, O.FollowUp(O.Day30), smartphone, O.AtKigali(startedOn + 30, 9 * O.HOUR));
    ToCandidateAdds(c, pid, O.FollowUp(O.Day30), smartphone, O.AtKigali(startedOn + 30, 9 * O.HOUR));
    var d := ToCandidate(c, pid, O.FollowUp(O.Day30), smartphone, O.AtKigali(startedOn + 30, 9 * O.HOUR));
    FreshMailIsScheduled(d, pid, O.FollowUp(O.Day90), smartphone, O.AtKigali(startedOn + 90, 9 * O.HOUR));
    forall cp: O.Checkpoint
      ensures Scheduled(WithCheckIns(db, pid, startedOn, smartphone), pid, O.FollowUp(cp),
                        O.AtKigali(startedOn + CheckInDay(cp), 9 * O.HOUR))
    {
      match cp case Day1 => case Week1 => case Day30 => case Day90 =>
    }
  }

  /** A start queues a check-in for the first day, the first week, the thirtieth and the
      ninetieth day, each at nine in the morning in Kigali, and a reminder at six the evening
      before exactly when that evening is still to come. */
  lemma AStartLaysDownItsCheckIns(db: Db, pid: Id, startedOn: int, n: Notice, after: Db)
    requires Reachable(db) && Start(db, pid, startedOn, n) == Ok(after)
    ensures pid < |after.placements|
    ensures forall c :: Scheduled(after, pid, O.FollowUp(c), O.AtKigali(startedOn + CheckInDay(c), 9 * O.HOUR))
    ensures var reminderAt := O.AtKigali(startedOn - 1, 18 * O.HOUR);
      && (n.now < reminderAt ==> Scheduled(after, pid, O.ShiftReminder, reminderAt))
      && (n.now >= reminderAt ==> !HasMail(after.box, pid, O.ShiftReminder))
  {
    ReachableIsTold(db);
    assert ToldOf(db.placements[pid].status, db.box, pid);
    var b := Begun(SetStatus(db, pid, Active).value, pid, startedOn);
    MovedRowStaysTidy(db.placements, pid, Active, db.box);
    StartSchedules(b, pid, startedOn, n);
  }

  lemma StartSchedules(b: Db, pid: Id, startedOn: int, n: Notice)
    requires pid < |b.placements| && Tidy(b.placements, b.box) && forall t :: OfTheStart(t) ==> !HasMail(b.box, pid, t)
    ensures var after := OnStarted(b, pid, startedOn, n);
      && after.placements == b.placements
      && (forall c :: Scheduled(after, pid, O.FollowUp(c), O.AtKigali(startedOn + CheckInDay(c), 9 * O.HOUR)))
    ensures var after, reminderAt := OnStarted(b, pid, startedOn, n), O.AtKigali(startedOn - 1, 18 * O.HOUR);
      && (n.now < reminderAt ==> Scheduled(after, pid, O.ShiftReminder, reminderAt))
      && (n.now >= reminderAt ==> !HasMail(after.box, pid, O.ShiftReminder))
  {
    var reminderAt := O.AtKigali(startedOn - 1, 18 * O.HOUR);
    FreshMailIsScheduled(b, pid, O.ShiftReminder, n.smartphone, reminderAt);
    ToCandidateAdds(b, pid, O.ShiftReminder, n.smartphone, reminderAt);
    StartedAdds(b, pid, startedOn, n);
    var a := if reminderAt <= n.now then b else ToCandidate(b, pid, O.ShiftReminder, n.smartphone, reminderAt);
    CheckInsAreScheduled(a, pid, startedOn, n.smartphone);
  }

  // ---- what a cancellation leaves --------------------------------------------------------------------------

  /** Right after a request is withdrawn nobody is waiting on it: who was is cancelled, and no
      other placement has moved. */
  lemma NobodyWaitsOnAWithdrawnRequest(db: Db, rid: Id, reasonGiven: bool, employer: Option<Id>, n: Notice, after: Db)
    requires Reachable(db) && CancelRequest(db, rid, reasonGiven, employer, n) == Ok(after)
    ensures |after.placements| == |db.placements|
    ensures forall i :: 0 <= i < |db.placements| ==>
      after.placements[i] == if Waiting(db.placements[i], rid) then db.placements[i].(status := Cancelled) else db.placements[i]
    ensures forall i :: 0 <= i < |db.placements| && after.placements[i].request == rid ==> !Live(after.placements[i].status)
    ensures forall i :: 0 <= i < |db.placements| && Waiting(db.placements[i], rid) ==>
      exists k :: TheOne(after, k, i, O.PlacementCancelled)
  {
    ReachableIsTold(db);
    CancelTells(db, rid, reasonGiven, employer, n, after);
    StepStaysReachable(db, DoCancel(rid, reasonGiven, employer, n));
    ReachableIsSound(after);
    forall i | 0 <= i < |db.placements| && Waiting(db.placements[i], rid)
      ensures exists k :: TheOne(after, k, i, O.PlacementCancelled)
    {
      assert ToldOf(after.placements[i].status, after.box, i);
      MailIsTheOne(after, i, O.PlacementCancelled);
    }
  }
}
