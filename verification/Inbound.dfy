/** Replies from the people the desk writes to: stored once, acted on once, or left for a human. */
module Inbound {
  import opened Base
  import opened Lifecycle
  import opened Invariants
  import opened Steps
  import opened Runs
  import E = Escalations
  import O = Outbox

  // ---- rows ------------------------------------------------------------------------------

  /** What a reply is read as. How words are read is not part of this model. */
  datatype Meaning = Issue(kind: E.Kind) | OptOut | Yes | No | Unclear

  type Reader = string -> Meaning

  datatype Note =
    | AlreadyHandled
    | RaisedEscalation(kind: E.Kind) | RaisedUnattached(kind: E.Kind)
    | ConsentWithdrawn | OfferAnswered(pid: Id, accepted: bool)
    | NobodyToOwnTheReport | UnknownNumber | AnswerRefused | NoOfferOutstanding | NotUnderstood

  datatype Letter = Letter(ref: Option<Id>, body: string, candidate: Option<Id>, contact: Option<Id>,
                           handled: bool, note: Option<Note>)

  datatype Report = Report(inbound: Id, kind: E.Kind, candidate: Option<Id>, placement: Option<Id>, owner: Id)

  datatype Line = Line(db: Db, consents: seq<O.Consent>, inbox: seq<Letter>, staff: seq<E.Staff>, reports: seq<Report>)

  // ---- storing ------------------------------------------------------------------------------

  predicate Delivered(inbox: seq<Letter>, ref: Option<Id>) {
    ref.Some? && exists i :: 0 <= i < |inbox| && inbox[i].ref == ref
  }

  function Receive(d: Line, ref: Option<Id>, body: string, candidate: Option<Id>, contact: Option<Id>): Line {
    if Delivered(d.inbox, ref) then d
    else d.(inbox := d.inbox + [Letter(ref, body, candidate, contact, false, None)])
  }

  // ---- acting ---------------------------------------------------------------------------------

  /** The latest placement of the candidate, or the latest still on offer. */
  function Latest(ps: seq<Placement>, c: Id, onOffer: bool): (found: Option<Id>)
    ensures found.Some? ==> found.value < |ps| && Ours(ps[found.value], c, onOffer)
    ensures forall i :: 0 <= i < |ps| && Ours(ps[i], c, onOffer) ==> found.Some? && i <= found.value
  {
    if ps == [] then None
    else if Ours(ps[|ps| - 1], c, onOffer) then Some(|ps| - 1)
    else Latest(ps[..|ps| - 1], c, onOffer)
  }

  predicate Ours(p: Placement, c: Id, onOffer: bool) {
    p.candidate == c && (onOffer ==> p.status == Offered)
  }

  function Finish(d: Line, iid: Id, note: Note, handled: bool): Line
    requires iid < |d.inbox|
  {
    d.(inbox := d.inbox[iid := d.inbox[iid].(handled := handled, note := Some(note))])
  }

  /** Kinds a human looks at whoever sent them. */
  predicate Safeguarding(k: E.Kind) { k == E.Harassment || k == E.SafetyIssue }

  function Raise(d: Line, iid: Id, kind: E.Kind, candidate: Option<Id>): (Line, Note)
    requires iid < |d.inbox|
  {
    var owner := E.DefaultOwner(d.staff, kind);
    var note := if candidate.Some? then RaisedEscalation(kind) else RaisedUnattached(kind);
    if owner.None? then (Finish(d, iid, NobodyToOwnTheReport, false), NobodyToOwnTheReport)
    else
      var about := if candidate.Some? then Latest(d.db.placements, candidate.value, false) else None;
      var r := Report(iid, kind, candidate, about, owner.value);
      (Finish(d.(reports := d.reports + [r]), iid, note, true), note)
  }

  /** The withdrawal is a new row, and what is queued for them is called off. */
  function Withdraw(d: Line, iid: Id, c: Id): (Line, Note)
    requires iid < |d.inbox|
  {
    var stopped := d.(consents := d.consents + [O.Consent(c, O.ForPlacement, false)], db := Step(d.db, DoStop(c)));
    (Finish(stopped, iid, ConsentWithdrawn, true), ConsentWithdrawn)
  }

  function Answer(d: Line, iid: Id, c: Id, accepted: bool, n: Notice): (Line, Note)
    requires iid < |d.inbox|
  {
    var pending := Latest(d.db.placements, c, true);
    if pending.None? then (Finish(d, iid, NoOfferOutstanding, false), NoOfferOutstanding)
    else
      match Respond(d.db, pending.value, accepted, n)
      case Err(_) => (Finish(d, iid, AnswerRefused, false), AnswerRefused)
      case Ok(after) =>
        (Finish(d.(db := after), iid, OfferAnswered(pending.value, accepted), true), OfferAnswered(pending.value, accepted))
  }

  function Handled(d: Line, iid: Id, read: Reader, n: Notice): (Line, Note) {
    if iid >= |d.inbox| || d.inbox[iid].handled then (d, AlreadyHandled)
    else
      var letter := d.inbox[iid];
      var meaning := read(letter.body);
      if letter.candidate.None? && letter.contact.None? then
        if meaning.Issue? && Safeguarding(meaning.kind) then Raise(d, iid, meaning.kind, None)
        else (Finish(d, iid, UnknownNumber, false), UnknownNumber)
      else if letter.candidate.None? then (Finish(d, iid, NotUnderstood, false), NotUnderstood)
      else
        match meaning
        case Issue(kind) => Raise(d, iid, kind, letter.candidate)
        case OptOut => Withdraw(d, iid, letter.candidate.value)
        case Yes => Answer(d, iid, letter.candidate.value, true, n)
        case No => Answer(d, iid, letter.candidate.value, false, n)
        case Unclear => (Finish(d, iid, NotUnderstood, false), NotUnderstood)
  }

  /** One escalation, one offer response, or one withdrawal. */
  predicate Effect(note: Note) {
    note.RaisedEscalation? || note.RaisedUnattached? || note.ConsentWithdrawn? || note.OfferAnswered?
  }

  // ---- what one handling does ----------------------------------------------------------------------

  /** The newest of the candidate's placements, or of those still on offer. */
  ghost predicate Newest(ps: seq<Placement>, c: Id, onOffer: bool, pid: Id) {
    && pid < |ps| && ps[pid].candidate == c && (onOffer ==> ps[pid].status == Offered)
    && (forall i :: pid < i < |ps| && ps[i].candidate == c ==> onOffer && ps[i].status != Offered)
  }

  ghost predicate HasNone(ps: seq<Placement>, c: Id, onOffer: bool) {
    forall i :: 0 <= i < |ps| && ps[i].candidate == c ==> onOffer && ps[i].status != Offered
  }

  /** A new report on this letter, of its sender and their newest placement, owned by rank. */
  ghost predicate ReportedAs(d: Line, after: Line, iid: Id, kind: E.Kind)
    requires iid < |d.inbox|
  {
    && after == d.(inbox := after.inbox, reports := after.reports)
    && |after.reports| == |d.reports| + 1 && after.reports[..|d.reports|] == d.reports
    && var (r, sender) := (after.reports[|d.reports|], d.inbox[iid].candidate);
    && r.inbound == iid && r.kind == kind && r.candidate == sender && E.AnswersFor(d.staff, kind, r.owner)
    && (r.placement.Some? ==> sender.Some? && Newest(d.db.placements, sender.value, false, r.placement.value))
    && (r.placement.None? && sender.Some? ==> HasNone(d.db.placements, sender.value, false))
  }

  /** A row against placement is added to their consents, and everything queued for them is
      called off; nothing else moves. */
  ghost predicate Withdrew(d: Line, after: Line, c: Id) {
    && after == d.(inbox := after.inbox, consents := d.consents + [O.Consent(c, O.ForPlacement, false)],
                   db := d.db.(box := after.db.box))
    && |after.db.box| == |d.db.box|
    && (forall i :: 0 <= i < |d.db.box| ==>
          after.db.box[i] ==
            if d.db.box[i].to == O.Recipient.Candidate(c) && d.db.box[i].status == O.Queued
            then d.db.box[i].(status := O.CalledOff) else d.db.box[i])
  }

  /** This offer is answered so, and every other placement is as it was. */
  ghost predicate Answered(before: Db, after: Db, pid: Id, accepted: bool)
    requires pid < |before.placements|
  {
    after.placements ==
      before.placements[pid := before.placements[pid].(status := if accepted then Status.Accepted else Declined)]
  }

  ghost predicate DidAsNoted(d: Line, after: Line, iid: Id, note: Note, meaning: Meaning, n: Notice)
    requires iid < |d.inbox|
  {
    match note
    case RaisedEscalation(k) => meaning == Issue(k) && d.inbox[iid].candidate.Some? && ReportedAs(d, after, iid, k)
    case RaisedUnattached(k) =>
      && meaning == Issue(k) && (k == E.Harassment || k == E.SafetyIssue)
      && d.inbox[iid].candidate.None? && d.inbox[iid].contact.None? && ReportedAs(d, after, iid, k)
    case ConsentWithdrawn =>
      meaning == OptOut && d.inbox[iid].candidate.Some? && Withdrew(d, after, d.inbox[iid].candidate.value)
    case OfferAnswered(pid, accepted) =>
      && meaning == (if accepted then Yes else No) && d.inbox[iid].candidate.Some?
      && Newest(d.db.placements, d.inbox[iid].candidate.value, true, pid)
      && after == d.(inbox := after.inbox, db := after.db)
      && Answered(d.db, after.db, pid, accepted) && Respond(d.db, pid, accepted, n) == Ok(after.db)
    case _ => false
  }

  /** What was done is what the letter asks and the note says, the letter is handled only if that
      was something, and no other letter moves. */
  ghost predicate Followed(d: Line, after: Line, iid: Id, note: Note, meaning: Meaning, n: Notice)
    requires iid < |d.inbox|
  {
    && after.inbox == d.inbox[iid := d.inbox[iid].(handled := Effect(note), note := Some(note))]
    && (Effect(note) ==> DidAsNoted(d, after, iid, note, meaning, n))
    && (!Effect(note) ==> after == d.(inbox := after.inbox))
  }

  lemma LatestIsNewest(ps: seq<Placement>, c: Id, onOffer: bool)
    ensures var found := Latest(ps, c, onOffer);
      && (found.Some? ==> Newest(ps, c, onOffer, found.value))
      && (found.None? ==> HasNone(ps, c, onOffer))
  {
    assert forall i :: 0 <= i < |ps| && ps[i].candidate == c && (onOffer ==> ps[i].status == Offered) ==> Ours(ps[i], c, onOffer);
  }

  lemma RaisingFollows(d: Line, iid: Id, kind: E.Kind, candidate: Option<Id>, n: Notice)
    requires iid < |d.inbox| && !d.inbox[iid].handled && candidate == d.inbox[iid].candidate
    requires candidate.None? ==> d.inbox[iid].contact.None? && Safeguarding(kind)
    ensures var (after, note) := Raise(d, iid, kind, candidate); Followed(d, after, iid, note, Issue(kind), n)
  {
    var owner := E.DefaultOwner(d.staff, kind);
    if owner.Some? { E.OwnerByRank(d.staff, kind, owner.value); }
    if candidate.Some? { LatestIsNewest(d.db.placements, candidate.value, false); }
  }

  lemma WithdrawingFollows(d: Line, iid: Id, n: Notice)
    requires iid < |d.inbox| && !d.inbox[iid].handled && d.inbox[iid].candidate.Some?
    ensures var (after, note) := Withdraw(d, iid, d.inbox[iid].candidate.value); Followed(d, after, iid, note, OptOut, n)
  {
  }

  lemma AnsweringFollows(d: Line, iid: Id, accepted: bool, n: Notice)
    requires iid < |d.inbox| && !d.inbox[iid].handled && d.inbox[iid].candidate.Some?
    ensures var (after, note) := Answer(d, iid, d.inbox[iid].candidate.value, accepted, n);
      Followed(d, after, iid, note, if accepted then Yes else No, n)
  {
    var c := d.inbox[iid].candidate.value;
    LatestIsNewest(d.db.placements, c, true);
    var pending := Latest(d.db.placements, c, true);
    if pending.Some? && Respond(d.db, pending.value, accepted, n).Ok? {
      AnAnswerLands(d.db, pending.value, accepted, n);
    }
  }

  lemma AnAnswerLands(db: Db, pid: Id, accepted: bool, n: Notice)
    requires Respond(db, pid, accepted, n).Ok?
    ensures pid < |db.placements| && Answered(db, Respond(db, pid, accepted, n).value, pid, accepted)
  {
  }

  lemma LeavingFollows(d: Line, iid: Id, note: Note, meaning: Meaning, n: Notice)
    requires iid < |d.inbox| && !d.inbox[iid].handled && !Effect(note)
    ensures Followed(d, Finish(d, iid, note, false), iid, note, meaning, n)
  {
  }

  /** A letter becomes handled exactly when what it asks and its note says was done, and otherwise
      nothing but the note changes. */
  lemma HandledExactlyWhenDone(d: Line, iid: Id, read: Reader, n: Notice)
    requires iid < |d.inbox| && !d.inbox[iid].handled
    ensures var (after, note) := Handled(d, iid, read, n); Followed(d, after, iid, note, read(d.inbox[iid].body), n)
  {
    var letter, meaning := d.inbox[iid], read(d.inbox[iid].body);
    LeavingFollows(d, iid, UnknownNumber, meaning, n);
    LeavingFollows(d, iid, NotUnderstood, meaning, n);
    if letter.candidate.Some? {
      match meaning
      case Issue(kind) => RaisingFollows(d, iid, kind, letter.candidate, n);
      case OptOut => WithdrawingFollows(d, iid, n);
      case Yes => AnsweringFollows(d, iid, true, n);
      case No => AnsweringFollows(d, iid, false, n);
      case Unclear =>
    } else if letter.contact.None? && meaning.Issue? && Safeguarding(meaning.kind) {
      RaisingFollows(d, iid, meaning.kind, None, n);
    }
  }

  /** Which note it is: what is asked, of whom it comes, and what there is to answer. */
  ghost predicate Calls(d: Line, iid: Id, meaning: Meaning, note: Note)
    requires iid < |d.inbox|
  {
    var (letter, ps) := (d.inbox[iid], d.db.placements);
    if letter.candidate.None? then
      if letter.contact.Some? then note == NotUnderstood
      else if meaning != Issue(E.Harassment) && meaning != Issue(E.SafetyIssue) then note == UnknownNumber
      else note == if E.NobodyActive(d.staff) then NobodyToOwnTheReport else RaisedUnattached(meaning.kind)
    else
      match meaning
      case Issue(kind) => note == if E.NobodyActive(d.staff) then NobodyToOwnTheReport else RaisedEscalation(kind)
      case OptOut => note == ConsentWithdrawn
      case Unclear => note == NotUnderstood
      case _ =>
        if HasNone(ps, letter.candidate.value, true) then note == NoOfferOutstanding
        else note.OfferAnswered? && note.accepted == (meaning == Yes) && Newest(ps, letter.candidate.value, true, note.pid)
  }

  /** Replies do what they say. In every reachable state an unhandled letter is noted as it asks: a
      yes or a no answers the newest offer pending, and that offer is then accepted or declined and
      no other placement moves; a report, a withdrawal and everything else leave every placement
      as it was. */
  lemma ALetterDoesWhatItSays(d: Line, iid: Id, read: Reader, n: Notice)
    requires Reachable(d.db) && iid < |d.inbox| && !d.inbox[iid].handled
    ensures var (after, note) := Handled(d, iid, read, n);
      && Calls(d, iid, read(d.inbox[iid].body), note)
      && (note.OfferAnswered? ==> note.pid < |d.db.placements| && Answered(d.db, after.db, note.pid, note.accepted))
      && (!note.OfferAnswered? ==> after.db.placements == d.db.placements)
  {
    HandledExactlyWhenDone(d, iid, read, n);
    var letter, meaning := d.inbox[iid], read(d.inbox[iid].body);
    if meaning.Issue? { E.RoutingIsTotal(d.staff, meaning.kind, 0); }
    if letter.candidate.Some? {
      LatestIsNewest(d.db.placements, letter.candidate.value, true);
      var pending := Latest(d.db.placements, letter.candidate.value, true);
      if pending.Some? {
        TheGuardNeverStopsSomebodyWhoHoldsTheOffer(d.db, pending.value, if meaning == Yes then Status.Accepted else Declined);
      }
    }
  }

  /** A yes accepts and a no declines. */
  lemma AYesAcceptsAndANoDeclines(d: Line, iid: Id, pid: Id, read: Reader, n: Notice)
    requires Reachable(d.db) && iid < |d.inbox| && !d.inbox[iid].handled && d.inbox[iid].candidate.Some?
    requires Newest(d.db.placements, d.inbox[iid].candidate.value, true, pid)
    ensures var (before, now) := (d.db.placements, Handled(d, iid, read, n).0.db.placements);
      && (read(d.inbox[iid].body) == Yes ==> now == before[pid := before[pid].(status := Status.Accepted)])
      && (read(d.inbox[iid].body) == No ==> now == before[pid := before[pid].(status := Declined)])
      && (read(d.inbox[iid].body) !in {Yes, No} ==> now == before)
  {
    ALetterDoesWhatItSays(d, iid, read, n);
    var c, note := d.inbox[iid].candidate.value, Handled(d, iid, read, n).1;
    if note.OfferAnswered? {
      assert Newest(d.db.placements, c, true, note.pid) && note.pid == pid;
    }
  }

  /** A report is left behind only when it is not a report anybody could act on: the sender is
      unknown and it is not about safeguarding, or comes from an employer, or nobody on the staff
      is active. */
  lemma ReportsAreNeverDropped(d: Line, iid: Id, read: Reader, n: Notice)
    requires iid < |d.inbox| && !d.inbox[iid].handled && read(d.inbox[iid].body).Issue?
    ensures var kind := read(d.inbox[iid].body).kind;
      Handled(d, iid, read, n).0.inbox[iid].handled <==>
        !E.NobodyActive(d.staff) &&
        (d.inbox[iid].candidate.Some? || (d.inbox[iid].contact.None? && Safeguarding(kind)))
  {
    E.RoutingIsTotal(d.staff, read(d.inbox[iid].body).kind, 0);
  }

  // ---- over every run --------------------------------------------------------------------------------

  datatype Event =
    | Arrives(ref: Option<Id>, body: string, candidate: Option<Id>, contact: Option<Id>)
    | Handling(iid: Id, n: Notice)
    | Operation(op: Op)
    | ConsentRecorded(consent: O.Consent)
    | RotaChanged(staff: seq<E.Staff>)

  datatype Entry = Entry(iid: Id, note: Note)

  /** The line as it stands, and what every handling so far has returned. */
  datatype History = History(line: Line, log: seq<Entry>)

  function Next(h: History, e: Event, read: Reader): History {
    match e
    case Arrives(ref, body, candidate, contact) => h.(line := Receive(h.line, ref, body, candidate, contact))
    case Handling(iid, n) =>
      var (after, note) := Handled(h.line, iid, read, n);
      History(after, h.log + [Entry(iid, note)])
    case Operation(op) => h.(line := h.line.(db := Step(h.line.db, op)))
    case ConsentRecorded(c) => h.(line := h.line.(consents := h.line.consents + [c]))
    case RotaChanged(staff) => h.(line := h.line.(staff := staff))
  }

  function After(h: History, events: seq<Event>, read: Reader): History
    decreases |events|
  {
    if events == [] then h else After(Next(h, events[0], read), events[1..], read)
  }

  function Effects(log: seq<Entry>, iid: Id): nat {
    if log == [] then 0
    else
      var last := log[|log| - 1];
      Effects(log[..|log| - 1], iid) + (if last.iid == iid && Effect(last.note) then 1 else 0)
  }

  function Raised(log: seq<Entry>, iid: Id): nat {
    if log == [] then 0
    else
      var last := log[|log| - 1];
      Raised(log[..|log| - 1], iid)
      + (if last.iid == iid && (last.note.RaisedEscalation? || last.note.RaisedUnattached?) then 1 else 0)
  }

  function ReportsOn(reports: seq<Report>, iid: Id): nat {
    if reports == [] then 0
    else ReportsOn(reports[..|reports| - 1], iid) + (if reports[|reports| - 1].inbound == iid then 1 else 0)
  }

  /** Each letter has had one effect if it is handled and none if not, every report on it is one
      of those effects, and no reference is stored twice. */
  ghost predicate Accounted(h: History) {
    && (forall iid :: 0 <= iid < |h.line.inbox| ==> Effects(h.log, iid) == if h.line.inbox[iid].handled then 1 else 0)
    && (forall iid :: |h.line.inbox| <= iid ==> Effects(h.log, iid) == 0)
    && (forall iid: Id :: ReportsOn(h.line.reports, iid) == Raised(h.log, iid))
    && OncePerReference(h.line.inbox)
  }

  ghost predicate OncePerReference(inbox: seq<Letter>) {
    forall i, j :: 0 <= i < j < |inbox| && inbox[i].ref.Some? ==> inbox[i].ref != inbox[j].ref
  }

  lemma OneMoreEntry(log: seq<Entry>, e: Entry)
    ensures forall iid: Id :: Effects(log + [e], iid) == Effects(log, iid) + (if e.iid == iid && Effect(e.note) then 1 else 0)
    ensures forall iid: Id :: iid != e.iid ==> Raised(log + [e], iid) == Raised(log, iid)
    ensures Raised(log + [e], e.iid) == Raised(log, e.iid) + (if e.note.RaisedEscalation? || e.note.RaisedUnattached? then 1 else 0)
  {
    assert (log + [e])[..|log|] == log;
  }

  lemma OneMoreReport(reports: seq<Report>, r: Report)
    ensures forall iid: Id :: ReportsOn(reports + [r], iid) == ReportsOn(reports, iid) + (if r.inbound == iid then 1 else 0)
  {
    assert (reports + [r])[..|reports|] == reports;
  }

  lemma ReportsStayMatched(h: History, after: Line, e: Entry)
    requires forall iid: Id :: ReportsOn(h.line.reports, iid) == Raised(h.log, iid)
    requires e.iid < |h.line.inbox|
    requires if e.note.RaisedEscalation? || e.note.RaisedUnattached?
             then ReportedAs(h.line, after, e.iid, e.note.kind) else after.reports == h.line.reports
    ensures forall iid: Id :: ReportsOn(after.reports, iid) == Raised(h.log + [e], iid)
  {
    OneMoreEntry(h.log, e);
    if |after.reports| > |h.line.reports| {
      var r := after.reports[|h.line.reports|];
      assert after.reports == h.line.reports + [r];
      OneMoreReport(h.line.reports, r);
    }
  }

  /** One handling that followed its note, put on the log. */
  lemma FollowedStaysAccounted(h: History, after: Line, iid: Id, note: Note, meaning: Meaning, n: Notice)
    requires Accounted(h) && iid < |h.line.inbox| && !h.line.inbox[iid].handled
    requires Followed(h.line, after, iid, note, meaning, n)
    ensures Accounted(History(after, h.log + [Entry(iid, note)]))
  {
    OneMoreEntry(h.log, Entry(iid, note));
    ReportsStayMatched(h, after, Entry(iid, note));
  }

  lemma RepeatStaysAccounted(h: History, iid: Id)
    requires Accounted(h)
    ensures Accounted(h.(log := h.log + [Entry(iid, AlreadyHandled)]))
  {
    OneMoreEntry(h.log, Entry(iid, AlreadyHandled));
  }

  lemma HandlingStaysAccounted(h: History, iid: Id, n: Notice, read: Reader)
    requires Accounted(h)
    ensures Accounted(Next(h, Handling(iid, n), read))
  {
    if iid < |h.line.inbox| && !h.line.inbox[iid].handled {
      HandledExactlyWhenDone(h.line, iid, read, n);
      var (after, note) := Handled(h.line, iid, read, n);
      FollowedStaysAccounted(h, after, iid, note, read(h.line.inbox[iid].body), n);
    } else {
      RepeatStaysAccounted(h, iid);
      assert Handled(h.line, iid, read, n) == (h.line, AlreadyHandled);
    }
  }

  lemma EventStaysAccounted(h: History, e: Event, read: Reader)
    requires Accounted(h)
    ensures Accounted(Next(h, e, read))
  {
    match e
    case Handling(iid, n) => HandlingStaysAccounted(h, iid, n, read);
    case _ =>
  }

  /** Whatever is delivered again and however often the pending letters are worked through. */
  lemma {:induction false} RunStaysAccounted(h: History, events: seq<Event>, read: Reader)
    requires Accounted(h)
    ensures Accounted(After(h, events, read))
    decreases |events|
  {
    if events != [] {
      EventStaysAccounted(h, events[0], read);
      RunStaysAccounted(Next(h, events[0], read), events[1..], read);
    }
  }

  const Quiet := History(Line(Empty, [], [], [], []), [])

  /** Two letters under one provider reference are one letter; it has at most one effect and at
      most one escalation, and it is handled exactly when the effect happened. */
  lemma OneEffectPerReference(events: seq<Event>, read: Reader, i: Id, j: Id)
    requires var inbox := After(Quiet, events, read).line.inbox;
      i < |inbox| && j < |inbox| && inbox[i].ref.Some? && inbox[i].ref == inbox[j].ref
    ensures i == j
    ensures var h := After(Quiet, events, read);
      && Effects(h.log, i) <= 1 && ReportsOn(h.line.reports, i) <= 1
      && (h.line.inbox[i].handled <==> Effects(h.log, i) == 1)
  {
    RunStaysAccounted(Quiet, events, read);
    RaisedAreEffects(After(Quiet, events, read).log, i);
  }

  lemma {:induction false} RaisedAreEffects(log: seq<Entry>, iid: Id)
    ensures Raised(log, iid) <= Effects(log, iid)
  {
    if log != [] { RaisedAreEffects(log[..|log| - 1], iid); }
  }

  /** A delivery changes anything exactly when it carries a new reference, or none: without one,
      the same words are stored, and acted on, as often as they are delivered. */
  lemma StoredExactlyWhenNotSeen(d: Line, ref: Option<Id>, body: string, candidate: Option<Id>, contact: Option<Id>)
    ensures Receive(d, ref, body, candidate, contact) != d <==> ref.None? || forall i :: 0 <= i < |d.inbox| ==> d.inbox[i].ref != ref
    ensures var once := Receive(d, ref, body, candidate, contact);
      Receive(once, ref, body, candidate, contact) == once <==> ref.Some?
  {
    var letter := Letter(ref, body, candidate, contact, false, None);
    assert |d.inbox + [letter]| == |d.inbox| + 1;
    if !Delivered(d.inbox, ref) { assert (d.inbox + [letter])[|d.inbox|] == letter; }
  }

  /** Replies work through the same operations as everybody else: with them in the picture the
      tables are still ones the operations reach, so everything proved of reachable tables holds. */
  lemma {:induction false} RepliesKeepTheTables(h: History, events: seq<Event>, read: Reader)
    requires Reachable(h.line.db)
    ensures Reachable(After(h, events, read).line.db)
    decreases |events|
  {
    if events != [] {
      EventStaysReachable(h, events[0], read);
      RepliesKeepTheTables(Next(h, events[0], read), events[1..], read);
    }
  }

  lemma EventStaysReachable(h: History, e: Event, read: Reader)
    requires Reachable(h.line.db)
    ensures Reachable(Next(h, e, read).line.db)
  {
    match e
    case Operation(op) => StepStaysReachable(h.line.db, op);
    case Handling(iid, n) =>
      if iid < |h.line.inbox| && !h.line.inbox[iid].handled { HandlingIsAStep(h.line, iid, read, n); }
    case _ =>
  }

  lemma HandlingIsAStep(d: Line, iid: Id, read: Reader, n: Notice)
    requires Reachable(d.db) && iid < |d.inbox| && !d.inbox[iid].handled
    ensures Reachable(Handled(d, iid, read, n).0.db)
  {
    HandledExactlyWhenDone(d, iid, read, n);
    match Handled(d, iid, read, n).1
    case ConsentWithdrawn => StepStaysReachable(d.db, DoStop(d.inbox[iid].candidate.value));
    case OfferAnswered(pid, accepted) => StepStaysReachable(d.db, DoRespond(pid, accepted, n));
    case _ =>
  }

  // ---- a STOP ----------------------------------------------------------------------------------------

  /** After a STOP nothing is queued for them and they have no consent standing; the dispatcher
      suppresses whatever is queued later, until they grant it again. */
  lemma StopIsComplete(d: Line, iid: Id, read: Reader, n: Notice)
    requires iid < |d.inbox| && !d.inbox[iid].handled && d.inbox[iid].candidate.Some?
    requires read(d.inbox[iid].body) == OptOut
    ensures var after, c := Handled(d, iid, read, n).0, d.inbox[iid].candidate.value;
      && after.inbox[iid].handled && !O.HasConsent(after.consents, c)
      && forall i :: 0 <= i < |after.db.box| && after.db.box[i].to == O.Recipient.Candidate(c) ==> after.db.box[i].status != O.Queued
  {
  }

  // ---- an answer that waited ------------------------------------------------------------------------------

  /** A yes or a no from this candidate that nobody has dealt with. */
  ghost predicate UnspentAnswer(d: Line, iid: Id, c: Id, read: Reader) {
    iid < |d.inbox| && !d.inbox[iid].handled && d.inbox[iid].candidate == Some(c) && read(d.inbox[iid].body) in {Yes, No}
  }

  ghost predicate WouldAnswer(d: Line, iid: Id, pid: Id, read: Reader, n: Notice) {
    exists accepted :: Handled(d, iid, read, n).1 == OfferAnswered(pid, accepted)
  }

  lemma TheNewestOfferIsPending(ps: seq<Placement>, row: Placement)
    requires row.status == Offered
    ensures Latest(ps + [row], row.candidate, true) == Some(|ps|)
  {
  }

  /** Some letter in the inbox would answer this placement, were it handled on these tables. */
  ghost predicate AnsweredByLetter(d: Line, pid: Id, read: Reader, n: Notice) {
    exists iid: Id :: WouldAnswer(d, iid, pid, read, n)
  }

  ghost predicate HasUnspentAnswer(d: Line, c: Id, read: Reader) {
    exists iid: Id :: UnspentAnswer(d, iid, c, read)
  }

  lemma AnOldAnswerMeetsANewRow(d: Line, row: Placement, n: Notice, after: Db, read: Reader)
    requires Inv(after) && after.placements == d.db.placements + [row] && row.status == Offered
    ensures AnsweredByLetter(d.(db := after), |d.db.placements|, read, n) <==> HasUnspentAnswer(d, row.candidate, read)
  {
    var pid, now := |d.db.placements|, d.(db := after);
    TheNewestOfferIsPending(d.db.placements, row);
    forall iid: Id | UnspentAnswer(d, iid, row.candidate, read) ensures WouldAnswer(now, iid, pid, read, n) {
      var accepted := read(d.inbox[iid].body) == Yes;
      GuardOnlyStopsNewcomers(after.requests, after.placements, pid, if accepted then Accepted else Declined);
      assert Handled(now, iid, read, n).1 == OfferAnswered(pid, accepted);
    }
    forall iid: Id | WouldAnswer(now, iid, pid, read, n) ensures UnspentAnswer(d, iid, row.candidate, read) {
    }
  }

  predicate OffersTo(op: Op, c: Id) {
    || (op.DoOffer? && op.facts.id == c)
    || (op.DoWriteOffer? && op.cid == c)
    || (op.DoReplace? && op.facts.id == c)
  }

  lemma OfferingAddsARow(db: Db, op: Op, c: Id, after: Db) returns (row: Placement)
    requires Do(db, op) == Ok(after) && OffersTo(op, c)
    ensures after.placements == db.placements + [row] && row.candidate == c && row.status == Offered
  {
    match op
    case DoOffer(rid, _, _) => row := OfferRow(db, rid, c);
    case DoWriteOffer(rid, _, _) => row := OfferRow(db, rid, c);
    case DoReplace(failed, _, pay, _) => row := CoverRow(db, failed, c, pay);
  }

  /** A reply is meant for the offer on the table when it was sent, but it is applied to the
      latest offer when it is read. A fresh offer, of work or of cover, is answered by a letter
      that arrived before it was made exactly when the candidate has a yes or a no lying
      unhandled. */
  lemma AnOldAnswerMeetsANewOfferExactlyWhen(d: Line, op: Op, c: Id, n: Notice, after: Db, read: Reader)
    requires Inv(d.db) && Do(d.db, op) == Ok(after) && OffersTo(op, c)
    ensures AnsweredByLetter(d.(db := after), |d.db.placements|, read, n) <==> HasUnspentAnswer(d, c, read)
  {
    DoKeepsInv(d.db, op, after);
    var row := OfferingAddsARow(d.db, op, c, after);
    AnOldAnswerMeetsANewRow(d, row, n, after, read);
  }

  /** Such a letter is not rare: a yes or a no with no offer outstanding, the answer to a check-in
      for one, stays unhandled, and is tried again at every run. */
  lemma AnswersToNothingStayUnspent(d: Line, iid: Id, c: Id, read: Reader, n: Notice)
    requires UnspentAnswer(d, iid, c, read) && Latest(d.db.placements, c, true).None?
    ensures Handled(d, iid, read, n).1 == NoOfferOutstanding
    ensures UnspentAnswer(Handled(d, iid, read, n).0, iid, c, read)
  {
  }
}
