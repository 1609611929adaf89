/** The message outbox: queueing, cancelling, and sending what is due. Moments are
    microseconds of UTC, counted from some midnight. */
module Outbox {
  import opened Base
  import opened Sorting

  // ---- the clock -----------------------------------------------------------------

  const HOUR := 3_600_000_000
  const DAY := 24 * HOUR
  const KIGALI_OFFSET := 2 * HOUR
  const QUIET_FROM := 21 * HOUR
  const QUIET_UNTIL := 7 * HOUR

  function LocalDay(moment: int): int { (moment + KIGALI_OFFSET) / DAY }

  function LocalTime(moment: int): int { (moment + KIGALI_OFFSET) % DAY }

  predicate InQuietHours(moment: int) {
    LocalTime(moment) >= QUIET_FROM || LocalTime(moment) < QUIET_UNTIL
  }

  /** A local day and time of day, as a moment. */
  function AtKigali(day: int, time: int): int { day * DAY + time - KIGALI_OFFSET }

  function NextSendWindow(moment: int): int {
    if !InQuietHours(moment) then moment
    else AtKigali(if LocalTime(moment) < QUIET_UNTIL then LocalDay(moment) else LocalDay(moment) + 1, QUIET_UNTIL)
  }

  /** Day and time of day tell the moment, and the moment tells them. */
  lemma TheClockTells(day: int, time: int)
    requires 0 <= time < DAY
    ensures LocalDay(AtKigali(day, time)) == day && LocalTime(AtKigali(day, time)) == time
  {
  }

  /** The first moment, from the given one on, at which sending is allowed. */
  lemma NextSendWindowIsEarliest(moment: int)
    ensures moment <= NextSendWindow(moment) && !InQuietHours(NextSendWindow(moment))
    ensures forall k :: moment <= k < NextSendWindow(moment) ==> InQuietHours(k)
  {
    var day, time := LocalDay(moment), LocalTime(moment);
    assert moment == AtKigali(day, time);
    TheClockTells(day, QUIET_UNTIL);
    TheClockTells(day + 1, QUIET_UNTIL);
    forall k | moment <= k < NextSendWindow(moment) ensures InQuietHours(k) {
      var later := time + (k - moment);
      if later < DAY {
        assert k == AtKigali(day, later);
        TheClockTells(day, later);
      } else {
        assert k == AtKigali(day + 1, later - DAY);
        TheClockTells(day + 1, later - DAY);
      }
    }
  }

  /** Nine in the evening until seven in the morning in Kigali, on a clock that shows UTC. */
  lemma QuietHoursInUtc(day: int, time: int)
    requires 0 <= time < 86_400_000_000
    ensures InQuietHours(day * 86_400_000_000 + time) <==> time >= 19 * 3_600_000_000 || time < 5 * 3_600_000_000
  {
    var moment, later := day * DAY + time, time + KIGALI_OFFSET;
    if later < DAY {
      assert moment == AtKigali(day, later);
      TheClockTells(day, later);
    } else {
      assert moment == AtKigali(day + 1, later - DAY);
      TheClockTells(day + 1, later - DAY);
    }
  }

  // ---- rows ------------------------------------------------------------------------

  const MAX_ATTEMPTS := 5
  const MINUTE := 60_000_000
  const BACKOFF_MINUTES: seq<int> := [1, 5, 15, 60, 180]

  datatype Checkpoint = Day1 | Week1 | Day30 | Day90

  datatype Template =
    | PlacementOffer | ShiftReminder | FollowUp(checkpoint: Checkpoint) | PlacementCancelled | PlacementContract
    | EmployerWorkerAssigned | AttendanceUnconfirmed | EscalationBreach | EscalationBreachMany | EmployerCoverSent

  datatype Recipient = Candidate(id: Id) | Contact(id: Id) | Staff(id: Id)

  datatype Channel = WhatsApp | Sms

  /** CalledOff is the source's 'cancelled'. */
  datatype MessageStatus = Queued | Sent | Delivered | Failed | CalledOff | Suppressed

  datatype Message = Message(to: Recipient, placement: Option<Id>, template: Template, channel: Channel,
                             status: MessageStatus, attempts: nat, due: int, ref: Option<Id>)

  datatype Purpose = ForPlacement | ForAfterDark | ForReporting

  datatype Consent = Consent(candidate: Id, purpose: Purpose, granted: bool)

  /** requires_consent of the template in the catalogue. */
  predicate RequiresConsent(t: Template) {
    t.PlacementOffer? || t.ShiftReminder? || t.FollowUp? || t.PlacementCancelled? || t.PlacementContract?
  }

  /** The templates the unique index allows once per placement. */
  predicate OncePerPlacement(t: Template) {
    RequiresConsent(t) || t.AttendanceUnconfirmed?
  }

  /** Whom the application writes to with which template: the offer, the reminder, the check-ins,
      the notice and the contract go to candidates, questions and news of workers to an
      employer's contact, missed deadlines to staff. */
  predicate Uses(to: Recipient, t: Template) {
    match to
    case Candidate(_) => RequiresConsent(t)
    case Contact(_) => t.EmployerWorkerAssigned? || t.EmployerCoverSent? || t.AttendanceUnconfirmed?
    case Staff(_) => t.EscalationBreach? || t.EscalationBreachMany?
  }

  /** The latest placement-consent row decides; no row means no. */
  function HasConsent(consents: seq<Consent>, candidate: Id): bool {
    if consents == [] then false
    else
      var last := consents[|consents| - 1];
      if last.candidate == candidate && last.purpose == ForPlacement then last.granted
      else HasConsent(consents[..|consents| - 1], candidate)
  }

  /** What was said last on placement, by this candidate. */
  ghost predicate LastWord(consents: seq<Consent>, candidate: Id, k: nat) {
    && k < |consents| && consents[k].candidate == candidate && consents[k].purpose == ForPlacement
    && (forall j :: k < j < |consents| && consents[j].candidate == candidate ==> consents[j].purpose != ForPlacement)
  }

  lemma {:induction false} ConsentIsTheLastWord(consents: seq<Consent>, candidate: Id)
    ensures HasConsent(consents, candidate) <==> exists k: nat :: LastWord(consents, candidate, k) && consents[k].granted
  {
    if consents != [] {
      var front, n := consents[..|consents| - 1], |consents| - 1;
      ConsentIsTheLastWord(front, candidate);
      if consents[n].candidate == candidate && consents[n].purpose == ForPlacement {
        assert forall k: nat :: LastWord(consents, candidate, k) <==> k == n;
      } else {
        assert forall k: nat :: LastWord(consents, candidate, k) <==> LastWord(front, candidate, k);
      }
    }
  }

  // ---- queue and cancel --------------------------------------------------------------

  function NewMessage(to: Recipient, placement: Option<Id>, t: Template, channel: Channel, due: int): Message {
    Message(to, placement, t, channel, Queued, 0, due, None)
  }

  predicate AlreadyQueued(box: seq<Message>, m: Message) {
    m.placement.Some? && OncePerPlacement(m.template) &&
    exists i :: 0 <= i < |box| && box[i].placement == m.placement && box[i].template == m.template
  }

  function Post(box: seq<Message>, m: Message): seq<Message> {
    if AlreadyQueued(box, m) then box else box + [m]
  }

  function CallOffFor(box: seq<Message>, placement: Id): seq<Message> {
    seq(|box|, i requires 0 <= i < |box| =>
      if box[i].placement == Some(placement) && box[i].status == Queued then box[i].(status := CalledOff) else box[i])
  }

  function CallOffTo(box: seq<Message>, candidate: Id): seq<Message> {
    seq(|box|, i requires 0 <= i < |box| =>
      if box[i].to == Candidate(candidate) && box[i].status == Queued then box[i].(status := CalledOff) else box[i])
  }

  // ---- one attempt ---------------------------------------------------------------------

  datatype Reply = Reply(ok: bool, ref: Option<Id>, retryable: bool)

  datatype Fate = SentOut | FailedTry | NotSendable | FellBack

  predicate NoConsentFor(m: Message, consents: seq<Consent>) {
    RequiresConsent(m.template) && m.to.Candidate? && !HasConsent(consents, m.to.id)
  }

  /** The provider is called: nothing suppressed the message first. */
  predicate Reaches(m: Message, consents: seq<Consent>, phone: bool) {
    !NoConsentFor(m, consents) && phone
  }

  function DispatchOne(m: Message, consents: seq<Consent>, phone: bool, reply: Reply, moment: int): (Message, Fate) {
    if !Reaches(m, consents, phone) then (m.(status := Suppressed), NotSendable)
    else if reply.ok then (m.(status := Sent, attempts := m.attempts + 1, ref := reply.ref), SentOut)
    else
      var attempts := m.attempts + 1;
      var exhausted := !reply.retryable || attempts >= MAX_ATTEMPTS;
      if exhausted && m.channel == WhatsApp then (m.(channel := Sms, attempts := 0, due := moment), FellBack)
      else if exhausted then (m.(status := Failed, attempts := attempts), FailedTry)
      else
        var step := if attempts - 1 < |BACKOFF_MINUTES| - 1 then attempts - 1 else |BACKOFF_MINUTES| - 1;
        (m.(attempts := attempts, due := moment + BACKOFF_MINUTES[step] * MINUTE), FailedTry)
  }

  /** A queued row always has an attempt left. */
  predicate HasTries(m: Message) { m.status == Queued ==> m.attempts < MAX_ATTEMPTS }

  /** Provider calls this row can still cause: what is left on its channel, and a whole
      channel more while it has SMS to fall back to. */
  function Budget(m: Message): nat
    requires HasTries(m)
  {
    if m.status != Queued then 0
    else (if m.channel == WhatsApp then MAX_ATTEMPTS else 0) + (MAX_ATTEMPTS - m.attempts)
  }

  /** The measure of an attempt, first component first. */
  predicate Nearer(after: Message, before: Message) {
    || (after.channel == Sms && before.channel == WhatsApp)
    || (after.channel == before.channel && after.attempts > before.attempts)
  }

  /** Every call is paid for out of the budget, a row leaves the queue or comes nearer to
      leaving it, only the channel change resets the attempts, and it never changes back. */
  lemma AnAttemptIsPaidFor(m: Message, consents: seq<Consent>, phone: bool, reply: Reply, moment: int)
    requires m.status == Queued && HasTries(m)
    ensures var (after, fate) := DispatchOne(m, consents, phone, reply, moment);
      && HasTries(after)
      && (Reaches(m, consents, phone) ==> Budget(after) < Budget(m))
      && (after.status == Queued ==> Nearer(after, m) && MAX_ATTEMPTS >= after.attempts)
      && (m.channel == Sms ==> after.channel == Sms)
      && (fate == SentOut <==> after.status == Sent)
      && (fate == SentOut <==> Reaches(m, consents, phone) && reply.ok)
      && (fate == NotSendable <==> !Reaches(m, consents, phone))
      && (fate == SentOut ==> after == m.(status := Sent, attempts := m.attempts + 1, ref := reply.ref))
      && (fate != SentOut ==> after.ref == m.ref)
      && (fate == NotSendable ==> after == m.(status := Suppressed))
      && (after.status == Suppressed <==> !Reaches(m, consents, phone))
      && after.to == m.to && after.placement == m.placement && after.template == m.template
  {
  }

  /** A call that fails sends the row to SMS, ends it, or has it wait: SMS only from WhatsApp and
      the end only on SMS, both only once retrying is over. The waits are a minute, five, a quarter
      of an hour and an hour: the last wait of the schedule, three hours, is never reached. */
  lemma WhatAFailedCallLeadsTo(m: Message, consents: seq<Consent>, reply: Reply, moment: int)
    requires m.status == Queued && HasTries(m) && !NoConsentFor(m, consents) && !reply.ok
    ensures var (after, fate) := DispatchOne(m, consents, true, reply, moment);
      && (fate == FellBack <==> m.channel == WhatsApp && (!reply.retryable || m.attempts == 4))
      && (after.status == Failed <==> m.channel == Sms && (!reply.retryable || m.attempts == 4))
      && (fate == FellBack ==> after == m.(channel := Sms, attempts := 0, due := moment))
      && (after.status == Failed ==> fate == FailedTry && after == m.(status := Failed, attempts := m.attempts + 1))
      && (fate != FellBack && after.status != Failed ==>
            && fate == FailedTry && reply.retryable && m.attempts < 4
            && after == m.(attempts := m.attempts + 1, due := moment + [1, 5, 15, 60][m.attempts] * 60_000_000))
  {
  }

  /** What one attempt meets: the consents standing, whether there is a phone, how the provider
      answers, and when. */
  datatype Attempt = Attempt(consents: seq<Consent>, phone: bool, reply: Reply, moment: int)

  function AfterAttempts(m: Message, attempts: seq<Attempt>): Message
    decreases |attempts|
  {
    if attempts == [] || m.status != Queued then m
    else
      var a := attempts[0];
      AfterAttempts(DispatchOne(m, a.consents, a.phone, a.reply, a.moment).0, attempts[1..])
  }

  /** No message is tried for ever: as many attempts as its budget, ten for a new one on
      WhatsApp, take it out of the queue, whatever each of them meets. */
  lemma {:induction false} EveryMessageLeavesTheQueue(m: Message, attempts: seq<Attempt>)
    requires HasTries(m) && |attempts| >= Budget(m)
    ensures AfterAttempts(m, attempts).status != Queued
    ensures m.channel == Sms ==> AfterAttempts(m, attempts).channel == Sms
    decreases |attempts|
  {
    if attempts != [] && m.status == Queued {
      var a := attempts[0];
      AnAttemptIsPaidFor(m, a.consents, a.phone, a.reply, a.moment);
      EveryMessageLeavesTheQueue(DispatchOne(m, a.consents, a.phone, a.reply, a.moment).0, attempts[1..]);
    }
  }

  /** And the bound is met: while the provider keeps failing for now, each attempt costs exactly
      one, so a message is still queued until the last of them. */
  lemma {:induction false} TheBudgetIsExact(m: Message, attempts: seq<Attempt>)
    requires HasTries(m) && m.status == Queued && |attempts| < Budget(m)
    requires forall a :: a in attempts ==> Reaches(m, a.consents, a.phone) && !a.reply.ok && a.reply.retryable
    ensures AfterAttempts(m, attempts).status == Queued
    ensures HasTries(AfterAttempts(m, attempts)) && Budget(AfterAttempts(m, attempts)) == Budget(m) - |attempts|
    decreases |attempts|
  {
    if attempts != [] {
      var a := attempts[0];
      assert a in attempts && forall b :: b in attempts[1..] ==> b in attempts;
      TheBudgetIsExact(DispatchOne(m, a.consents, a.phone, a.reply, a.moment).0, attempts[1..]);
    }
  }

  /** A receipt finds the message its reference was given for: the one just sent, and of the others
      none while references are unique. */
  lemma AReceiptFindsItsMessage(box: seq<Message>, i: nat, consents: seq<Consent>, ref: Id, delivered: bool, moment: int)
    requires i < |box| && box[i].status == Queued && Reaches(box[i], consents, true)
    requires forall j :: 0 <= j < |box| ==> box[j].ref != Some(ref)
    ensures var sent := box[i := DispatchOne(box[i], consents, true, Reply(true, Some(ref), false), moment).0];
      && sent[i].status == Sent
      && Receipts(sent, ref, delivered) == sent[i := sent[i].(status := if delivered then Delivered else Failed)]
  {
  }

  // ---- the dispatcher --------------------------------------------------------------------

  datatype Slot = Slot(id: Id, message: Message)

  datatype Report = Report(sent: nat, failed: nat, suppressed: nat, deferred: nat, fellBack: nat)

  /** A call of the provider, with how many consent rows there were when it was made. */
  datatype Call = Call(message: Id, to: Recipient, template: Template, channel: Channel,
                       moment: int, ok: bool, seen: nat)

  predicate Due(m: Message, moment: int, staffOnly: bool) {
    m.status == Queued && m.due <= moment && (staffOnly ==> m.to.Staff?)
  }

  predicate Earlier(a: Slot, b: Slot) { a.message.due <= b.message.due }

  function Slots(box: seq<Message>): seq<Slot> {
    seq(|box|, i requires 0 <= i < |box| => Slot(i, box[i]))
  }

  function DueRows(box: seq<Message>, moment: int, staffOnly: bool): seq<Slot> {
    Keep(Slots(box), (s: Slot) => Due(s.message, moment, staffOnly))
  }

  /** The rows the claiming query returns, oldest due first. */
  function Claim(box: seq<Message>, moment: int, limit: nat, staffOnly: bool): seq<Slot> {
    var due := StableSort(DueRows(box, moment, staffOnly), Earlier);
    if |due| <= limit then due else due[..limit]
  }

  /** A dispatcher outside quiet hours may write to anybody, inside them only to staff. */
  predicate Deferrable(m: Message, moment: int) {
    InQuietHours(moment) && m.status == Queued && m.due <= moment && !m.to.Staff?
  }

  function Deferred(box: seq<Message>, moment: int): seq<Message> {
    seq(|box|, i requires 0 <= i < |box| =>
      if Deferrable(box[i], moment) then box[i].(due := NextSendWindow(moment)) else box[i])
  }

  function Tally(fates: seq<Fate>, f: Fate): nat {
    if fates == [] then 0 else Tally(fates[..|fates| - 1], f) + (if fates[|fates| - 1] == f then 1 else 0)
  }

  lemma {:induction false} TalliesAddUp(fates: seq<Fate>)
    ensures Tally(fates, SentOut) + Tally(fates, FailedTry) + Tally(fates, NotSendable) + Tally(fates, FellBack) == |fates|
  {
    if fates != [] { TalliesAddUp(fates[..|fates| - 1]); }
  }

  /** The rows among those claimed that met this fate. */
  ghost function RowsWith(claimed: seq<Slot>, fates: seq<Fate>, f: Fate): set<Id>
    requires |fates| <= |claimed|
  {
    if fates == [] then {}
    else
      var last := |fates| - 1;
      RowsWith(claimed, fates[..last], f) + if fates[last] == f then {claimed[last].id} else {}
  }

  lemma {:induction false} RowsWithAre(claimed: seq<Slot>, fates: seq<Fate>, f: Fate, i: Id)
    requires |fates| <= |claimed|
    ensures i in RowsWith(claimed, fates, f) <==> exists k :: 0 <= k < |fates| && fates[k] == f && claimed[k].id == i
  {
    if fates != [] { RowsWithAre(claimed, fates[..|fates| - 1], f, i); }
  }

  lemma {:induction false} TallyIsHowMany(claimed: seq<Slot>, fates: seq<Fate>, f: Fate)
    requires |fates| <= |claimed| && forall j, k :: 0 <= j < k < |claimed| ==> claimed[j].id != claimed[k].id
    ensures Tally(fates, f) == |RowsWith(claimed, fates, f)|
  {
    if fates != [] {
      var last := |fates| - 1;
      TallyIsHowMany(claimed, fates[..last], f);
      RowsWithAre(claimed, fates[..last], f, claimed[last].id);
    }
  }

  ghost predicate DistinctSlots(slots: seq<Slot>, box: seq<Message>) {
    && (forall k :: 0 <= k < |slots| ==> slots[k].id < |box| && slots[k].message == box[slots[k].id])
    && (forall j, k :: 0 <= j < k < |slots| ==> slots[j].id != slots[k].id)
  }

  ghost predicate Claims(slots: seq<Slot>, id: Id) {
    exists k :: 0 <= k < |slots| && slots[k].id == id
  }

  lemma DueRowsAreRows(box: seq<Message>, moment: int, staffOnly: bool)
    ensures forall s :: s in DueRows(box, moment, staffOnly) <==>
      s.id < |box| && s.message == box[s.id] && Due(s.message, moment, staffOnly)
    ensures forall s :: multiset(DueRows(box, moment, staffOnly))[s] <= 1
  {
    var isDue := (s: Slot) => Due(s.message, moment, staffOnly);
    KeepCounts(Slots(box), isDue);
    KeepHolds(Slots(box), isDue);
    forall s ensures multiset(DueRows(box, moment, staffOnly))[s] <= 1 { OnlyOnce(box, s); }
    forall s: Slot | s.id < |box| && s.message == box[s.id] ensures s in Slots(box) {
      assert Slots(box)[s.id] == s;
    }
  }

  /** Sorting and cutting keeps them distinct rows. */
  lemma SortedRowsAreDistinct(rows: seq<Slot>, due: seq<Slot>, box: seq<Message>)
    requires multiset(due) == multiset(rows)
    requires forall s :: s in rows ==> s.id < |box| && s.message == box[s.id]
    requires forall s :: multiset(rows)[s] <= 1
    ensures DistinctSlots(due, box)
    ensures forall s :: s in due <==> s in rows
  {
    forall s ensures s in due <==> s in rows { assert s in due <==> s in multiset(due); }
    forall k | 0 <= k < |due| ensures due[k].id < |box| && due[k].message == box[due[k].id] {
      assert due[k] in rows;
    }
    forall j, k | 0 <= j < k < |due| ensures due[j].id != due[k].id {
      if due[j].id == due[k].id { Twice(due, j, k); }
    }
  }

  /** Sorted by when they are due and cut at the limit: nothing cut was due before anything kept. */
  lemma CutKeepsTheEarliest(due: seq<Slot>, claimed: seq<Slot>, j: nat)
    requires SortedBy(due, Earlier) && claimed <= due && |claimed| <= j < |due|
    ensures forall k :: 0 <= k < |claimed| ==> claimed[k].message.due <= due[j].message.due
  {
    forall k | 0 <= k < |claimed| ensures claimed[k].message.due <= due[j].message.due {
      assert Earlier(due[k], due[j]);
    }
  }

  /** The claim is a set of distinct rows, all due and allowed, as many as the limit lets in,
      none of them due later than a row left out. */
  lemma ClaimedRows(box: seq<Message>, moment: int, limit: nat, staffOnly: bool)
    ensures var claimed := Claim(box, moment, limit, staffOnly);
      && DistinctSlots(claimed, box)
      && |claimed| <= limit
      && (forall k :: 0 <= k < |claimed| ==> Due(claimed[k].message, moment, staffOnly))
      && (forall i, k :: 0 <= i < |box| && Due(box[i], moment, staffOnly) && !Claims(claimed, i) && 0 <= k < |claimed|
            ==> claimed[k].message.due <= box[i].due)
      && (forall i :: 0 <= i < |box| && Due(box[i], moment, staffOnly) && |claimed| < limit ==> Claims(claimed, i))
  {
    var rows := DueRows(box, moment, staffOnly);
    var due := StableSort(rows, Earlier);
    DueRowsAreRows(box, moment, staffOnly);
    StableSortSorts(rows, Earlier);
    SortedRowsAreDistinct(rows, due, box);
    forall k | 0 <= k < |due| ensures Due(due[k].message, moment, staffOnly) { assert due[k] in rows; }
    forall i | 0 <= i < |box| && Due(box[i], moment, staffOnly) ensures Slot(i, box[i]) in due { }
    CutRows(box, moment, due, Claim(box, moment, limit, staffOnly), limit, staffOnly);
  }

  lemma CutRows(box: seq<Message>, moment: int, due: seq<Slot>, claimed: seq<Slot>, limit: nat, staffOnly: bool)
    requires SortedBy(due, Earlier) && DistinctSlots(due, box)
    requires forall i :: 0 <= i < |box| && Due(box[i], moment, staffOnly) ==> Slot(i, box[i]) in due
    requires claimed == if |due| <= limit then due else due[..limit]
    ensures DistinctSlots(claimed, box)
    ensures forall i, k :: 0 <= i < |box| && Due(box[i], moment, staffOnly) && !Claims(claimed, i) && 0 <= k < |claimed| ==>
      claimed[k].message.due <= box[i].due
    ensures forall i :: 0 <= i < |box| && Due(box[i], moment, staffOnly) && |claimed| < limit ==> Claims(claimed, i)
  {
    forall i | 0 <= i < |box| && Due(box[i], moment, staffOnly) && !Claims(claimed, i)
      ensures |claimed| == limit && forall k :: 0 <= k < |claimed| ==> claimed[k].message.due <= box[i].due
    {
      var j :| 0 <= j < |due| && due[j] == Slot(i, box[i]);
      assert forall k :: 0 <= k < |claimed| ==> claimed[k] == due[k] && claimed[k].id != i;
      CutKeepsTheEarliest(due, claimed, j);
    }
  }

  lemma Twice<T>(xs: seq<T>, j: nat, k: nat)
    requires j < k < |xs| && xs[j] == xs[k]
    ensures multiset(xs)[xs[j]] >= 2
  {
    var x := xs[j];
    assert xs == xs[..k] + [x] + xs[k + 1..];
    assert xs[..k][j] == x && x in multiset(xs[..k]);
  }

  lemma {:induction false} OnlyOnce(box: seq<Message>, s: Slot)
    ensures multiset(Slots(box))[s] <= 1
    ensures s.id >= |box| ==> multiset(Slots(box))[s] == 0
  {
    if box != [] {
      var front, last := box[..|box| - 1], Slot(|box| - 1, box[|box| - 1]);
      OnlyOnce(front, s);
      assert Slots(box) == Slots(front) + [last];
    }
  }

  /** One more outcome on the report. */
  function AddTo(r: Report, f: Fate): Report {
    match f
    case SentOut => r.(sent := r.sent + 1)
    case FailedTry => r.(failed := r.failed + 1)
    case NotSendable => r.(suppressed := r.suppressed + 1)
    case FellBack => r.(fellBack := r.fellBack + 1)
  }

  function Account(fates: seq<Fate>, deferred: nat): Report {
    Report(Tally(fates, SentOut), Tally(fates, FailedTry), Tally(fates, NotSendable), deferred, Tally(fates, FellBack))
  }

  lemma AccountMore(fates: seq<Fate>, f: Fate, deferred: nat)
    ensures Account(fates + [f], deferred) == AddTo(Account(fates, deferred), f)
  {
    assert (fates + [f])[..|fates|] == fates;
  }

  /** What happens to a claimed row, given who has a phone and how the provider answers. */
  function Outcome(s: Slot, consents: seq<Consent>, phones: Recipient -> bool, provider: (Id, Channel, nat) -> Reply,
                   moment: int): (Message, Fate) {
    DispatchOne(s.message, consents, phones(s.message.to), provider(s.id, s.message.channel, s.message.attempts), moment)
  }

  /** The first n claimed rows have met their outcome; every other row is as it was. */
  ghost predicate Tried(now: seq<Message>, before: seq<Message>, claimed: seq<Slot>, fates: seq<Fate>,
                        consents: seq<Consent>, phones: Recipient -> bool, provider: (Id, Channel, nat) -> Reply,
                        moment: int)
  {
    && |now| == |before| && |fates| <= |claimed| && DistinctSlots(claimed, before)
    && (forall k :: 0 <= k < |fates| ==>
          (now[claimed[k].id], fates[k]) == Outcome(claimed[k], consents, phones, provider, moment))
    && (forall k :: |fates| <= k < |claimed| ==> now[claimed[k].id] == claimed[k].message)
    && (forall i :: 0 <= i < |now| && !Claims(claimed, i) ==> now[i] == before[i])
  }

  lemma TriedOneMore(now: seq<Message>, before: seq<Message>, claimed: seq<Slot>, fates: seq<Fate>,
                     consents: seq<Consent>, phones: Recipient -> bool, provider: (Id, Channel, nat) -> Reply,
                     moment: int)
    requires Tried(now, before, claimed, fates, consents, phones, provider, moment) && |fates| < |claimed|
    ensures var s := claimed[|fates|];
      var (after, fate) := Outcome(s, consents, phones, provider, moment);
      Tried(now[s.id := after], before, claimed, fates + [fate], consents, phones, provider, moment)
  {
    assert Claims(claimed, claimed[|fates|].id);
  }

  /** A call that may be made at this moment: by night only to staff, to a candidate only with
      the consent its template asks for. */
  ghost predicate Proper(c: Call, moment: int, consents: seq<Consent>) {
    && c.moment == moment
    && (InQuietHours(moment) ==> c.to.Staff?)
    && c.seen == |consents|
    && (c.to.Candidate? && RequiresConsent(c.template) ==> HasConsent(consents, c.to.id))
  }

  /** The calls added: at most this many, all proper. */
  ghost predicate Called(before: seq<Call>, now: seq<Call>, atMost: nat, moment: int, consents: seq<Consent>) {
    && |before| <= |now| <= |before| + atMost && now[..|before|] == before
    && (forall k :: |before| <= k < |now| ==> Proper(now[k], moment, consents))
  }

  lemma CalledOneMore(before: seq<Call>, was: seq<Call>, now: seq<Call>, i: nat, moment: int, consents: seq<Consent>)
    requires Called(before, was, i, moment, consents) && Called(was, now, 1, moment, consents)
    ensures Called(before, now, i + 1, moment, consents)
  {
    assert now[..|before|] == now[..|was|][..|before|];
    forall k | |before| <= k < |now| ensures Proper(now[k], moment, consents) {
      if k < |was| { assert now[k] == now[..|was|][k]; }
    }
  }

  /** What a queued row has come to. */
  ghost predicate Became(before: Message, after: Message, f: Fate) {
    before.status == Queued &&
    match f
    case SentOut => after.status == Sent
    case NotSendable => after.status == Suppressed
    case FellBack => after.status == Queued && before.channel == WhatsApp && after.channel == Sms
    case FailedTry =>
      || after.status == Failed
      || (after.status == Queued && after.channel == before.channel && after.attempts > before.attempts)
  }

  lemma FateIsWhatItBecame(m: Message, consents: seq<Consent>, phone: bool, reply: Reply, moment: int, f: Fate)
    requires m.status == Queued
    ensures var (after, fate) := DispatchOne(m, consents, phone, reply, moment);
      fate == f <==> Became(m, after, f)
  {
  }

  /** How many rows came to this, between two states of the outbox. */
  ghost function HowMany(before: seq<Message>, now: seq<Message>, f: Fate): nat
    requires |now| == |before|
  {
    |set i: nat | i < |before| && Became(before[i], now[i], f)|
  }

  /** The report says how many rows came to what. */
  ghost predicate CountsRows(r: Report, before: seq<Message>, now: seq<Message>)
    requires |now| == |before|
  {
    && r.sent == HowMany(before, now, SentOut) && r.failed == HowMany(before, now, FailedTry)
    && r.suppressed == HowMany(before, now, NotSendable) && r.fellBack == HowMany(before, now, FellBack)
  }

  /** The counts of a run are counts of rows: a fate is tallied as often as a row came to it. */
  lemma FatesAreRows(now: seq<Message>, before: seq<Message>, claimed: seq<Slot>, fates: seq<Fate>,
                     consents: seq<Consent>, phones: Recipient -> bool, provider: (Id, Channel, nat) -> Reply,
                     moment: int, f: Fate)
    requires Tried(now, before, claimed, fates, consents, phones, provider, moment) && |fates| == |claimed|
    requires forall k :: 0 <= k < |claimed| ==> claimed[k].message.status == Queued
    ensures Tally(fates, f) == HowMany(before, now, f)
  {
    TallyIsHowMany(claimed, fates, f);
    forall k | 0 <= k < |claimed| ensures fates[k] == f <==> Became(before[claimed[k].id], now[claimed[k].id], f) {
      var m := claimed[k].message;
      FateIsWhatItBecame(m, consents, phones(m.to), provider(claimed[k].id, m.channel, m.attempts), moment, f);
    }
    forall i: nat | i < |before| && !Claims(claimed, i) ensures !Became(before[i], now[i], f) { }
    RowsAreThoseThatBecame(now, before, claimed, fates, f);
  }

  lemma RowsAreThoseThatBecame(now: seq<Message>, before: seq<Message>, claimed: seq<Slot>, fates: seq<Fate>, f: Fate)
    requires |now| == |before| && |fates| == |claimed| && forall k :: 0 <= k < |claimed| ==> claimed[k].id < |before|
    requires forall k :: 0 <= k < |claimed| ==> (fates[k] == f <==> Became(before[claimed[k].id], now[claimed[k].id], f))
    requires forall i: nat :: i < |before| && !Claims(claimed, i) ==> !Became(before[i], now[i], f)
    ensures RowsWith(claimed, fates, f) == set i: nat | i < |before| && Became(before[i], now[i], f)
  {
    forall i: Id ensures i in RowsWith(claimed, fates, f) <==> i < |before| && Became(before[i], now[i], f) {
      RowsWithAre(claimed, fates, f, i);
      if i < |before| && Became(before[i], now[i], f) {
        var k :| 0 <= k < |claimed| && claimed[k].id == i;
        assert fates[k] == f;
      }
    }
  }

  predicate Receipted(m: Message, ref: Id) {
    m.ref == Some(ref) && (m.status == Sent || m.status == Delivered || m.status == Failed)
  }

  function WithReceipt(m: Message, ref: Id, delivered: bool): Message {
    if Receipted(m, ref) then m.(status := if delivered then Delivered else Failed) else m
  }

  function Receipts(box: seq<Message>, ref: Id, delivered: bool): seq<Message> {
    seq(|box|, i requires 0 <= i < |box| => WithReceipt(box[i], ref, delivered))
  }

  predicate WasSent(m: Message) { m.status == Sent || m.status == Delivered || m.status == Failed }

  ghost predicate UniqueRefs(box: seq<Message>) {
    forall i, j :: 0 <= i < j < |box| && box[i].ref.Some? ==> box[i].ref != box[j].ref
  }

  ghost predicate AtMostOneChange(before: seq<Message>, after: seq<Message>)
    requires |after| == |before|
  {
    forall i, j :: 0 <= i < j < |before| ==> after[i] == before[i] || after[j] == before[j]
  }

  /** A receipt neither reopens a message nor reaches past the one it is for. */
  lemma ReceiptsConcernOne(box: seq<Message>, ref: Id, delivered: bool)
    ensures var after := Receipts(box, ref, delivered);
      && (forall i :: 0 <= i < |box| ==> after[i] == box[i].(status := after[i].status))
      && (forall i :: 0 <= i < |box| ==> WasSent(after[i]) == WasSent(box[i]) && (!WasSent(box[i]) ==> after[i] == box[i]))
      && (UniqueRefs(box) ==> UniqueRefs(after) && AtMostOneChange(box, after))
      && Receipts(after, ref, delivered) == after
  {
  }

  class Dispatcher {
    var messages: seq<Message>
    var consents: seq<Consent>
    ghost var calls: seq<Call>

    ghost predicate Valid() reads this {
      forall i :: 0 <= i < |messages| ==> HasTries(messages[i])
    }

    constructor ()
      ensures Valid() && messages == [] && consents == [] && calls == []
    {
      messages, consents, calls := [], [], [];
    }

    /** The row is added unless its template is once-only and already on this placement. */
    method Queue(to: Recipient, placement: Option<Id>, t: Template, channel: Channel, due: int) returns (id: Option<Id>)
      requires Valid()
      modifies this`messages
      ensures Valid()
      ensures id.Some? <==> !AlreadyQueued(old(messages), NewMessage(to, placement, t, channel, due))
      ensures id.Some? ==> id.value == |old(messages)|
      ensures messages == Post(old(messages), NewMessage(to, placement, t, channel, due))
      ensures messages == if id.None? then old(messages)
        else old(messages) + [Message(to, placement, t, channel, Queued, 0, due, None)]
    {
      var m := NewMessage(to, placement, t, channel, due);
      if AlreadyQueued(messages, m) { return None; }
      id := Some(|messages|);
      messages := messages + [m];
    }

    method CancelForPlacement(placement: Id) returns (n: nat)
      requires Valid()
      modifies this`messages
      ensures Valid()
      ensures messages == CallOffFor(old(messages), placement)
      ensures |messages| == |old(messages)| && forall i :: 0 <= i < |messages| ==>
        var m := old(messages)[i];
        messages[i] == if m.placement == Some(placement) && m.status == Queued then m.(status := CalledOff) else m
      ensures n == |set i | 0 <= i < |messages| && messages[i] != old(messages)[i]|
    {
      n := |set i | 0 <= i < |messages| && messages[i].placement == Some(placement) && messages[i].status == Queued|;
      messages := CallOffFor(messages, placement);
      assert (set i | 0 <= i < |messages| && messages[i] != old(messages)[i])
        == (set i | 0 <= i < |old(messages)| && old(messages)[i].placement == Some(placement) && old(messages)[i].status == Queued);
    }

    method RecordConsent(candidate: Id, purpose: Purpose, granted: bool)
      modifies this`consents
      ensures consents == old(consents) + [Consent(candidate, purpose, granted)]
      ensures purpose == ForPlacement ==> HasConsent(consents, candidate) == granted
    {
      consents := consents + [Consent(candidate, purpose, granted)];
      assert consents[..|consents| - 1] == old(consents);
    }

    /** A receipt concerns sent messages alone: nothing queued, called off or suppressed moves, no
        reference, recipient, channel or count of attempts changes, and while references are
        unique at most one message is concerned. The same receipt again changes nothing. */
    method RecordDelivery(ref: Id, delivered: bool) returns (known: bool)
      requires Valid()
      modifies this`messages
      ensures Valid() && messages == Receipts(old(messages), ref, delivered)
      ensures known <==> exists i :: 0 <= i < |messages| && messages[i].ref == Some(ref) && WasSent(old(messages)[i])
      ensures forall i :: 0 <= i < |messages| && !WasSent(old(messages)[i]) ==> messages[i] == old(messages)[i]
      ensures UniqueRefs(old(messages)) ==> UniqueRefs(messages) && AtMostOneChange(old(messages), messages)
      ensures Receipts(messages, ref, delivered) == messages
    {
      known := exists i :: 0 <= i < |messages| && Receipted(messages[i], ref);
      ReceiptsConcernOne(messages, ref, delivered);
      messages := seq(|messages|, i requires 0 <= i < |messages| reads this => WithReceipt(messages[i], ref, delivered));
    }

    method TryOne(s: Slot, phones: Recipient -> bool, provider: (Id, Channel, nat) -> Reply, moment: int)
        returns (fate: Fate)
      requires Valid() && s.id < |messages| && messages[s.id] == s.message
      requires Due(s.message, moment, InQuietHours(moment))
      modifies this`messages, this`calls
      ensures Valid()
      ensures messages == old(messages)[s.id := Outcome(s, consents, phones, provider, moment).0]
      ensures fate == Outcome(s, consents, phones, provider, moment).1
      ensures Called(old(calls), calls, 1, moment, consents)
      ensures |calls| == |old(calls)| + (if Reaches(s.message, consents, phones(s.message.to)) then 1 else 0)
      ensures forall k :: |old(calls)| <= k < |calls| ==> calls[k].message == s.id
    {
      var phone := phones(s.message.to);
      var reply := provider(s.id, s.message.channel, s.message.attempts);
      AnAttemptIsPaidFor(s.message, consents, phone, reply, moment);
      var (after, f) := DispatchOne(s.message, consents, phone, reply, moment);
      if Reaches(s.message, consents, phone) {
        calls := calls + [Call(s.id, s.message.to, s.message.template, s.message.channel, moment, reply.ok,
                               |consents|)];
      }
      messages := messages[s.id := after];
      fate := f;
    }

    /** The loop over the claimed rows: each is tried once, every other row is left alone. */
    method TryAll(due: seq<Slot>, moment: int, phones: Recipient -> bool, provider: (Id, Channel, nat) -> Reply)
        returns (report: Report, ghost fates: seq<Fate>)
      requires Valid() && DistinctSlots(due, messages)
      requires forall k :: 0 <= k < |due| ==> Due(due[k].message, moment, InQuietHours(moment))
      modifies this`messages, this`calls
      ensures Valid() && |messages| == |old(messages)|
      ensures |fates| == |due| && report == Account(fates, 0)
      ensures Tried(messages, old(messages), due, fates, consents, phones, provider, moment)
      ensures Called(old(calls), calls, |due|, moment, consents)
    {
      fates, report := [], Report(0, 0, 0, 0, 0);
      for i := 0 to |due|
        invariant Valid() && |messages| == |old(messages)|
        invariant |fates| == i && report == Account(fates, 0)
        invariant Tried(messages, old(messages), due, fates, consents, phones, provider, moment)
        invariant Called(old(calls), calls, i, moment, consents)
      {
        TriedOneMore(messages, old(messages), due, fates, consents, phones, provider, moment);
        ghost var was := calls;
        var fate := TryOne(due[i], phones, provider, moment);
        CalledOneMore(old(calls), was, calls, i, moment, consents);
        AccountMore(fates, fate, 0);
        report := AddTo(report, fate);
        fates := fates + [fate];
      }
    }

    method DispatchDue(moment: int, limit: nat, phones: Recipient -> bool, provider: (Id, Channel, nat) -> Reply)
        returns (report: Report, ghost claimed: seq<Slot>, ghost fates: seq<Fate>)
      requires Valid()
      modifies this`messages, this`calls
      ensures Valid() && |messages| == |old(messages)|
      ensures claimed == Claim(old(messages), moment, limit, InQuietHours(moment))
      ensures forall k :: 0 <= k < |claimed| ==> claimed[k].message.status == Queued
      ensures |fates| == |claimed| && report == Account(fates, 0)
      ensures Tried(messages, old(messages), claimed, fates, consents, phones, provider, moment)
      ensures Called(old(calls), calls, |claimed|, moment, consents)
    {
      var due := Claim(messages, moment, limit, InQuietHours(moment));
      ClaimedRows(messages, moment, limit, InQuietHours(moment));
      report, fates := TryAll(due, moment, phones, provider);
      claimed := due;
    }

    /** Inside quiet hours what is due waits for the next window; outside them nothing does. */
    method DeferIfQuiet(moment: int) returns (deferred: nat)
      requires Valid()
      modifies this`messages
      ensures Valid() && messages == Deferred(old(messages), moment)
      ensures deferred == |set i | 0 <= i < |messages| && Deferrable(old(messages)[i], moment)|
    {
      deferred := |set i | 0 <= i < |messages| && Deferrable(messages[i], moment)|;
      if InQuietHours(moment) {
        messages := Deferred(messages, moment);
      } else {
        assert (set i | 0 <= i < |messages| && Deferrable(messages[i], moment)) == {};
        assert messages == Deferred(messages, moment);
      }
    }

    /** One run. Everything due and allowed at this hour is tried once, up to the limit; inside
        quiet hours the rest of what is due is moved, otherwise untouched, to the next window. */
    method Dispatch(moment: int, limit: nat, phones: Recipient -> bool, provider: (Id, Channel, nat) -> Reply)
        returns (report: Report, ghost claimed: seq<Slot>, ghost fates: seq<Fate>)
      requires Valid()
      modifies this`messages, this`calls
      ensures Valid() && |messages| == |old(messages)| && |fates| == |claimed|
      ensures claimed == Claim(Deferred(old(messages), moment), moment, limit, InQuietHours(moment))
      ensures Tried(messages, Deferred(old(messages), moment), claimed, fates, consents, phones, provider, moment)
      ensures report == Account(fates, |set i | 0 <= i < |messages| && Deferrable(old(messages)[i], moment)|)
      ensures report.sent + report.failed + report.suppressed + report.fellBack == |claimed|
      ensures CountsRows(report, old(messages), messages)
      ensures Called(old(calls), calls, |claimed|, moment, consents)
    {
      var deferred := DeferIfQuiet(moment);
      report, claimed, fates := DispatchDue(moment, limit, phones, provider);
      report := report.(deferred := report.deferred + deferred);
      TalliesAddUp(fates);
      ReportCountsRows(old(messages), messages, claimed, fates, consents, phones, provider, moment, report);
    }
  }

  /** Deferral moves nothing a row can come to. */
  lemma ReportCountsRows(before: seq<Message>, now: seq<Message>, claimed: seq<Slot>, fates: seq<Fate>,
                         consents: seq<Consent>, phones: Recipient -> bool, provider: (Id, Channel, nat) -> Reply,
                         moment: int, report: Report)
    requires Tried(now, Deferred(before, moment), claimed, fates, consents, phones, provider, moment)
    requires |fates| == |claimed| && forall k :: 0 <= k < |claimed| ==> claimed[k].message.status == Queued
    requires report == Account(fates, report.deferred)
    ensures |now| == |before| && CountsRows(report, before, now)
  {
    var later := Deferred(before, moment);
    forall f ensures Tally(fates, f) == HowMany(before, now, f) {
      FatesAreRows(now, later, claimed, fates, consents, phones, provider, moment, f);
      SameRowsBecame(before, later, now, f);
    }
  }

  lemma SameRowsBecame(before: seq<Message>, later: seq<Message>, now: seq<Message>, f: Fate)
    requires |later| == |before| == |now| && forall i :: 0 <= i < |before| ==> later[i] == before[i].(due := later[i].due)
    ensures HowMany(before, now, f) == HowMany(later, now, f)
  {
    forall i: nat | i < |before| ensures Became(before[i], now[i], f) <==> Became(later[i], now[i], f) { }
    assert (set i: nat | i < |before| && Became(before[i], now[i], f)) ==
      set i: nat | i < |later| && Became(later[i], now[i], f);
  }

  /** Deferral loses nothing, spends no attempt, touches no channel, and lands outside quiet
      hours and after now. */
  lemma DeferralOnlyPostpones(box: seq<Message>, moment: int, i: nat)
    requires i < |box|
    ensures |Deferred(box, moment)| == |box|
    ensures Deferred(box, moment)[i] == box[i].(due := Deferred(box, moment)[i].due)
    ensures var waits := InQuietHours(moment) && box[i].status == Queued && box[i].due <= moment && !box[i].to.Staff?;
      && (Deferrable(box[i], moment) <==> waits)
      && Deferred(box, moment)[i].due == (if waits then NextSendWindow(moment) else box[i].due)
    ensures Deferred(box, moment)[i].due != box[i].due ==>
      Deferred(box, moment)[i].due > moment && !InQuietHours(Deferred(box, moment)[i].due)
  {
    NextSendWindowIsEarliest(moment);
  }
}
