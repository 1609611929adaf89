/** What every operation of the life cycle keeps, and what follows over every run. */
module Invariants {
  import opened Base
  import opened Shifts
  import opened Matching
  import opened Lifecycle
  import O = Outbox

  // ---- the invariant, one table relation at a time ------------------------------------------

  ghost predicate Rooted(requests: seq<WorkRequest>, ps: seq<Placement>, people: seq<PersonStatus>) {
    && (forall i :: 0 <= i < |ps| ==> ps[i].request < |requests| && ps[i].candidate < |people|)
    && (forall i :: 0 <= i < |requests| ==> Sane(requests[i]) && InOrder(requests[i].hours))
  }

  /** No candidate holds two live placements on different requests that clash. */
  ghost predicate NoDoubleBooking(requests: seq<WorkRequest>, ps: seq<Placement>) {
    forall i, j :: 0 <= i < j < |ps| && Live(ps[i].status) && Live(ps[j].status) ==> !Collide(requests, ps[i], ps[j])
  }

  /** A placement is a no-show exactly when days were logged for it and none was attended. */
  ghost predicate LogDecides(ps: seq<Placement>, log: map<LogKey, bool>) {
    && (forall i :: 0 <= i < |ps| ==> (ps[i].status == NoShow <==> Logged(log, i) && !Attended(log, i)))
    && (forall k :: k in log ==> k.0 < |ps|)
  }

  /** Whatever is covered is a no-show, older than its cover, on the same request and pay unit. */
  ghost predicate Chained(ps: seq<Placement>) {
    forall i :: 0 <= i < |ps| && ps[i].covers.Some? ==> IsCoverOf(ps, i, ps[i].covers.value)
  }

  ghost predicate IsCoverOf(ps: seq<Placement>, i: Id, f: Id)
    requires i < |ps|
  {
    f < i && ps[f].status == NoShow && ps[f].request == ps[i].request && ps[f].payUnit == ps[i].payUnit
  }

  ghost predicate OncePerRequest(ps: seq<Placement>) {
    forall i, j :: 0 <= i < j < |ps| ==> ps[i].request != ps[j].request || ps[i].candidate != ps[j].candidate
  }

  ghost predicate OneStandingCover(ps: seq<Placement>) {
    forall i, j :: 0 <= i < j < |ps| && ps[i].covers.Some? && ps[i].covers == ps[j].covers
      ==> !Standing(ps[i]) || !Standing(ps[j])
  }

  /** Stored status: a decision about the person, or what the records say. */
  ghost predicate StatusDerived(ps: seq<Placement>, members: map<(Id, Id), Option<CohortOutcome>>, results: seq<Id>,
                                people: seq<PersonStatus>) {
    forall c :: 0 <= c < |people| ==> Decided(people[c]) || people[c] == Derived(ps, members, results, c)
  }

  /** What may still be queued about a placement of this status: about live work anything, about
      cancelled work the notice, about finished work the question whether it was attended. */
  ghost predicate MayWait(s: Status, m: O.Message) {
    || Live(s)
    || (s == Cancelled && m.template == O.PlacementCancelled)
    || (s == Completed && m.template == O.AttendanceUnconfirmed)
  }

  ghost predicate Fits(ps: seq<Placement>, m: O.Message) {
    m.status == O.Queued && m.placement.Some? ==>
      m.placement.value < |ps| && MayWait(ps[m.placement.value].status, m)
  }

  /** Every message goes to somebody its template is written for. */
  ghost predicate MailFits(ps: seq<Placement>, box: seq<O.Message>) {
    forall i :: 0 <= i < |box| ==> Queues(ps, box[i])
  }

  ghost predicate Queues(ps: seq<Placement>, m: O.Message) {
    Fits(ps, m) && O.HasTries(m) && O.Uses(m.to, m.template)
  }

  ghost predicate Enrolled(members: map<(Id, Id), Option<CohortOutcome>>, results: seq<Id>, people: seq<PersonStatus>) {
    && (forall k :: k in members ==> k.1 < |people|)
    && (forall i :: 0 <= i < |results| ==> results[i] < |people|)
  }

  /** What no log entry and no message can disturb. */
  ghost predicate Sound(db: Db) {
    && Rooted(db.requests, db.placements, db.people)
    && NoDoubleBooking(db.requests, db.placements)
    && Chained(db.placements)
    && OncePerRequest(db.placements)
    && OneStandingCover(db.placements)
    && Enrolled(db.members, db.results, db.people)
    && StatusDerived(db.placements, db.members, db.results, db.people)
  }

  ghost predicate Inv(db: Db) {
    Sound(db) && LogDecides(db.placements, db.log) && MailFits(db.placements, db.box)
  }

  // ---- rows added and rows changed ----------------------------------------------------------

  lemma CollideBothWays(requests: seq<WorkRequest>, a: Placement, b: Placement)
    ensures Collide(requests, a, b) <==> Collide(requests, b, a)
  {
    if a.request < |requests| && b.request < |requests| {
      ClashIsSymmetric(requests[a.request].hours, requests[b.request].hours);
    }
  }

  lemma GuardedRowKeepsBooking(requests: seq<WorkRequest>, ps: seq<Placement>, pid: Id, row: Placement)
    requires NoDoubleBooking(requests, ps) && pid <= |ps| && !GuardRefuses(requests, ps, pid, row)
    ensures pid < |ps| ==> NoDoubleBooking(requests, ps[pid := row])
    ensures pid == |ps| ==> NoDoubleBooking(requests, ps + [row])
  {
    forall i | 0 <= i < |ps| && i != pid && Live(ps[i].status) && Live(row.status)
      ensures !Collide(requests, ps[i], row) && !Collide(requests, row, ps[i])
    {
      CollideBothWays(requests, ps[i], row);
    }
  }

  /** In any state that keeps the rule, the trigger has nothing to say about a row that stays
      live: only an insert, or a no-show coming back, can be refused. */
  lemma GuardOnlyStopsNewcomers(requests: seq<WorkRequest>, ps: seq<Placement>, pid: Id, s: Status)
    requires NoDoubleBooking(requests, ps) && pid < |ps| && (Live(ps[pid].status) || !Live(s))
    ensures !GuardRefuses(requests, ps, pid, ps[pid].(status := s))
  {
    forall i | 0 <= i < |ps| && i != pid && Live(ps[i].status) && Live(s)
      ensures !Collide(requests, ps[i], ps[pid].(status := s))
    {
      CollideBothWays(requests, ps[i], ps[pid]);
      assert Collide(requests, ps[i], ps[pid].(status := s)) <==> Collide(requests, ps[i], ps[pid]);
    }
  }

  /** The statuses a placement may pass between. */
  predicate Edge(a: Status, b: Status) {
    || (a == Offered && b in {Accepted, Declined, Active, Cancelled})
    || (a == Accepted && b in {Active, NoShow, Terminated, Cancelled})
    || (a == Active && b in {Completed, Terminated, NoShow})
    || (a == NoShow && b == Active)
  }

  /** One status changes, to something the chain of covers allows. */
  lemma StatusKeepsChains(ps: seq<Placement>, pid: Id, s: Status)
    requires Chained(ps) && OncePerRequest(ps) && OneStandingCover(ps) && pid < |ps|
    requires (ps[pid].status == NoShow && s != NoShow) ==> !Covered(ps, pid)
    requires !Standing(ps[pid]) ==> s == ps[pid].status
    ensures var after := ps[pid := ps[pid].(status := s)];
      Chained(after) && OncePerRequest(after) && OneStandingCover(after)
  {
    var after := ps[pid := ps[pid].(status := s)];
    forall i | 0 <= i < |after| && after[i].covers.Some? ensures IsCoverOf(after, i, after[i].covers.value) {
      assert IsCoverOf(ps, i, ps[i].covers.value);
      assert ps[i].covers == Some(pid) ==> Covered(ps, pid);
    }
  }

  /** A row may be inserted as cover of this placement. */
  ghost predicate Coverable(ps: seq<Placement>, row: Placement, f: Id) {
    f < |ps| && ps[f].status == NoShow && ps[f].request == row.request && ps[f].payUnit == row.payUnit
  }

  lemma RowKeepsChains(ps: seq<Placement>, row: Placement)
    requires Chained(ps) && OncePerRequest(ps) && OneStandingCover(ps)
    requires !OnRequestAlready(ps, row) && !CoverStanding(ps, row)
    requires row.covers.Some? ==> Coverable(ps, row, row.covers.value)
    ensures Chained(ps + [row]) && OncePerRequest(ps + [row]) && OneStandingCover(ps + [row])
  {
    forall i | 0 <= i < |ps| && ps[i].covers.Some? ensures IsCoverOf(ps + [row], i, ps[i].covers.value) {
      assert IsCoverOf(ps, i, ps[i].covers.value);
    }
  }

  // ---- the attendance log ---------------------------------------------------------------------

  lemma LogOneDay(log: map<LogKey, bool>, pid: Id, day: int, present: bool)
    ensures var after := log[(pid, day) := present];
      && Logged(after, pid) && (present ==> Attended(after, pid))
      && forall i: Id :: i != pid ==> (Logged(after, i) <==> Logged(log, i)) && (Attended(after, i) <==> Attended(log, i))
  {
    var after := log[(pid, day) := present];
    assert (pid, day) in after;
    forall i: Id | i != pid ensures (Logged(after, i) <==> Logged(log, i)) && (Attended(after, i) <==> Attended(log, i)) {
      if Logged(log, i) { var k :| k in log && k.0 == i; assert k in after; }
      if Attended(log, i) { var k :| k in log && k.0 == i && log[k]; assert k in after && after[k]; }
    }
  }

  // ---- the derived status ------------------------------------------------------------------------

  lemma HasWorkElsewhere(ps: seq<Placement>, pid: Id, s: Status, c: Id)
    requires pid < |ps| && c != ps[pid].candidate
    ensures HasWork(ps[pid := ps[pid].(status := s)], c) <==> HasWork(ps, c)
  {
    var after := ps[pid := ps[pid].(status := s)];
    if HasWork(ps, c) {
      var i :| 0 <= i < |ps| && ps[i].candidate == c && (ps[i].status == Accepted || ps[i].status == Active);
      assert after[i] == ps[i];
    }
  }

  lemma HasWorkMore(ps: seq<Placement>, row: Placement, c: Id)
    requires row.status == Offered
    ensures HasWork(ps + [row], c) <==> HasWork(ps, c)
  {
    if HasWork(ps, c) {
      var i :| 0 <= i < |ps| && ps[i].candidate == c && (ps[i].status == Accepted || ps[i].status == Active);
      assert (ps + [row])[i] == ps[i];
    }
  }

  /** Everybody but these candidates has the status their records give. */
  ghost predicate DerivedBut(db: Db, but: set<Id>) {
    forall c :: 0 <= c < |db.people| && c !in but ==>
      Decided(db.people[c]) || db.people[c] == Derived(db.placements, db.members, db.results, c)
  }

  lemma RefreshSettles(db: Db, c: Id, but: set<Id>)
    requires DerivedBut(db, but)
    ensures DerivedBut(Refresh(db, c), but - {c})
  {
  }

  // ---- messages --------------------------------------------------------------------------------------

  lemma LiveMailFits(db: Db, pid: Id, t: O.Template, n: Notice, due: int)
    requires MailFits(db.placements, db.box) && pid < |db.placements|
    requires Live(db.placements[pid].status) || (db.placements[pid].status == Cancelled && t == O.PlacementCancelled)
      || (db.placements[pid].status == Completed && t == O.AttendanceUnconfirmed)
    ensures O.RequiresConsent(t) ==> MailFits(db.placements, ToCandidate(db, pid, t, n.smartphone, due).box)
    ensures t in {O.EmployerWorkerAssigned, O.EmployerCoverSent, O.AttendanceUnconfirmed} ==>
      MailFits(db.placements, ToContact(db, pid, t, n.contact, due).box)
  {
  }

  /** Once what is queued about a placement is called off, its status may become anything. */
  lemma CallOffFits(ps: seq<Placement>, box: seq<O.Message>, pid: Id, s: Status)
    requires MailFits(ps, box) && pid < |ps|
    ensures MailFits(ps[pid := ps[pid].(status := s)], O.CallOffFor(box, pid))
  {
    var after := ps[pid := ps[pid].(status := s)];
    var off := O.CallOffFor(box, pid);
    forall i | 0 <= i < |off| ensures Queues(after, off[i]) {
      assert Fits(ps, box[i]);
    }
  }

  lemma StayingLiveFits(ps: seq<Placement>, box: seq<O.Message>, pid: Id, s: Status)
    requires MailFits(ps, box) && pid < |ps| && (Live(s) || s == ps[pid].status)
    ensures MailFits(ps[pid := ps[pid].(status := s)], box)
  {
  }

  lemma MoreRowsFit(ps: seq<Placement>, box: seq<O.Message>, row: Placement)
    requires MailFits(ps, box)
    ensures MailFits(ps + [row], box)
  {
  }
}
