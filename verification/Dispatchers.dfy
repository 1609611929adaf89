/** Any number of dispatchers over one outbox, each working from the copies its claiming query
    returned, with cancellations, opt-outs and receipts in between. A claim locks its rows until
    the dispatcher commits; other claims skip locked rows and other updates wait for them. */
module Dispatchers {
  import opened Base
  import opened Outbox

  /** A claimed row: whose it is, the copy the query returned, and whether it has been tried. */
  datatype Hold = Hold(holder: Id, copy: Message, moment: int, tried: bool)

  datatype Floor = Floor(box: seq<Message>, consents: seq<Consent>, holds: map<Id, Hold>, calls: seq<Call>)

  datatype Move =
    | Queue(to: Recipient, placement: Option<Id>, template: Template, channel: Channel, due: int)
    | CancelPlacement(pid: Id)
    | Stop(candidate: Id)
    | Record(consent: Consent)
    | Defer(from: int)
    | Take(taker: Id, moment: int, rows: set<Id>)
    | Try(who: Id, row: Id, phone: bool, reply: Reply)
    | Commit(done: Id)
    | Receipt(ref: Id, delivered: bool)

  /** Some locked row would be touched, so the update waits. */
  predicate Waits(f: Floor, m: Move) {
    match m
    case CancelPlacement(p) => exists i :: i in f.holds && f.holds[i].copy.placement == Some(p)
    case Stop(c) => exists i :: i in f.holds && f.holds[i].copy.to == Candidate(c)
    case Defer(from) => exists i :: i in f.holds && Deferrable(f.holds[i].copy, from)
    case _ => false
  }

  /** A provider call, or a suppression, worked out from a claimed copy of the row. */
  function TryCopy(f: Floor, row: Id, copy: Message, moment: int, phone: bool, reply: Reply): Floor
    requires row < |f.box|
  {
    var after := DispatchOne(copy, f.consents, phone, reply, moment).0;
    var call := Call(row, copy.to, copy.template, copy.channel, moment, reply.ok, |f.consents|);
    f.(box := f.box[row := after], calls := if Reaches(copy, f.consents, phone) then f.calls + [call] else f.calls)
  }

  function Apply(f: Floor, m: Move): Floor {
    if Waits(f, m) then f
    else
      match m
      case Queue(to, placement, t, channel, due) =>
        if Uses(to, t) then f.(box := Post(f.box, NewMessage(to, placement, t, channel, due))) else f
      case CancelPlacement(p) => f.(box := CallOffFor(f.box, p))
      case Stop(c) => f.(box := CallOffTo(f.box, c), consents := f.consents + [Consent(c, ForPlacement, false)])
      case Record(c) => f.(consents := f.consents + [c])
      case Defer(from) => f.(box := Deferred(f.box, from))
      case Take(taker, moment, rows) =>
        var taken := set i | i in rows && i < |f.box| && i !in f.holds && Due(f.box[i], moment, InQuietHours(moment));
        f.(holds := f.holds + map i | i in taken :: Hold(taker, f.box[i], moment, false))
      case Try(who, row, phone, reply) =>
        if row < |f.box| && row in f.holds && f.holds[row].holder == who && !f.holds[row].tried then
          var h := f.holds[row];
          TryCopy(f, row, h.copy, h.moment, phone, reply).(holds := f.holds[row := h.(tried := true)])
        else f
      case Commit(done) => f.(holds := map i | i in f.holds && f.holds[i].holder != done :: f.holds[i])
      case Receipt(ref, delivered) =>
        f.(box := seq(|f.box|, i requires 0 <= i < |f.box| =>
          if i in f.holds then f.box[i] else WithReceipt(f.box[i], ref, delivered)))
  }

  function Run(f: Floor, moves: seq<Move>): Floor
    decreases |moves|
  {
    if moves == [] then f else Run(Apply(f, moves[0]), moves[1..])
  }

  const Opening := Floor([], [], map[], [])

  // ---- counting calls ----------------------------------------------------------------

  /** Calls about this row on this channel. */
  function CallsOn(calls: seq<Call>, row: Id, channel: Channel): nat {
    if calls == [] then 0
    else
      var last := calls[|calls| - 1];
      CallsOn(calls[..|calls| - 1], row, channel) + (if last.message == row && last.channel == channel then 1 else 0)
  }

  function Successes(calls: seq<Call>, row: Id): nat {
    if calls == [] then 0
    else
      var last := calls[|calls| - 1];
      Successes(calls[..|calls| - 1], row) + (if last.message == row && last.ok then 1 else 0)
  }

  lemma OneMoreCall(calls: seq<Call>, c: Call)
    ensures forall row, channel ::
      CallsOn(calls + [c], row, channel) ==
        CallsOn(calls, row, channel) + (if c.message == row && c.channel == channel then 1 else 0)
    ensures forall row ::
      Successes(calls + [c], row) == Successes(calls, row) + (if c.message == row && c.ok then 1 else 0)
  {
    assert (calls + [c])[..|calls|] == calls;
  }

  // ---- the invariant -------------------------------------------------------------------

  ghost predicate Fresh(m: Message, h: Hold) {
    m == h.copy && Due(h.copy, h.moment, InQuietHours(h.moment))
  }

  /** An untried claimed row still is what its claimer read: nobody else can have touched it. */
  ghost predicate CopiesAreFresh(f: Floor) {
    forall i :: i in f.holds ==> i < |f.box| && (f.holds[i].tried || Fresh(f.box[i], f.holds[i]))
  }

  /** A row's history of calls, as its state tells it. */
  ghost predicate Accounted(m: Message, calls: seq<Call>, row: Id) {
    && HasTries(m)
    && CallsOn(calls, row, WhatsApp) <= MAX_ATTEMPTS
    && CallsOn(calls, row, Sms) <= MAX_ATTEMPTS
    && (m.status == Queued ==> CallsOn(calls, row, m.channel) == m.attempts)
    && (m.channel == WhatsApp ==> CallsOn(calls, row, Sms) == 0)
    && Successes(calls, row) <= 1
    && (m.status in {Queued, CalledOff, Suppressed} ==> Successes(calls, row) == 0)
    && (m.status in {Sent, Delivered} || m.ref.Some? ==> Successes(calls, row) == 1)
  }

  /** WhatsApp first, then SMS, never back. */
  ghost predicate NeverBack(calls: seq<Call>) {
    forall j, k :: 0 <= j < k < |calls| && calls[j].message == calls[k].message && calls[j].channel == Sms
      ==> calls[k].channel == Sms
  }

  /** By night only to staff; to a candidate only while the latest of the placement-consent rows
      there were at the time granted it. */
  ghost predicate ProperCalls(calls: seq<Call>, consents: seq<Consent>) {
    forall k :: 0 <= k < |calls| ==> ProperCall(calls[k], consents)
  }

  ghost predicate ProperCall(c: Call, consents: seq<Consent>) {
    && (InQuietHours(c.moment) ==> c.to.Staff?)
    && c.seen <= |consents|
    && (c.to.Candidate? ==> HasConsent(consents[..c.seen], c.to.id))
  }

  /** Every row pairs a recipient with a template written for them. */
  ghost predicate AllInUse(box: seq<Message>) {
    forall i :: 0 <= i < |box| ==> Uses(box[i].to, box[i].template)
  }

  /** What the calls made so far add up to. */
  ghost predicate Counted(f: Floor) {
    && CopiesAreFresh(f)
    && (forall i :: 0 <= i < |f.box| ==> Accounted(f.box[i], f.calls, i))
    && (forall k :: 0 <= k < |f.calls| ==> f.calls[k].message < |f.box|)
    && NeverBack(f.calls)
  }

  /** Who was called, and when. */
  ghost predicate Licensed(f: Floor) { AllInUse(f.box) && ProperCalls(f.calls, f.consents) }

  ghost predicate Steady(f: Floor) { Counted(f) && Licensed(f) }

  /** Calls made earlier stay proper as consents are added. */
  lemma MoreConsentsKeepCallsProper(calls: seq<Call>, consents: seq<Consent>, c: Consent)
    requires ProperCalls(calls, consents)
    ensures ProperCalls(calls, consents + [c])
  {
    forall k | 0 <= k < |calls| ensures ProperCall(calls[k], consents + [c]) {
      assert (consents + [c])[..calls[k].seen] == consents[..calls[k].seen];
    }
  }

  lemma {:induction false} CountsComeFromCalls(calls: seq<Call>, row: Id)
    requires forall k :: 0 <= k < |calls| ==> calls[k].message != row
    ensures (forall channel :: CallsOn(calls, row, channel) == 0) && Successes(calls, row) == 0
  {
    if calls != [] { CountsComeFromCalls(calls[..|calls| - 1], row); }
  }

  lemma {:induction false} CallLeavesCount(calls: seq<Call>, k: nat)
    requires k < |calls|
    ensures CallsOn(calls, calls[k].message, calls[k].channel) > 0
  {
    if k < |calls| - 1 { CallLeavesCount(calls[..|calls| - 1], k); }
  }

  lemma TriedRowIsAccounted(m: Message, calls: seq<Call>, row: Id, c: Call, consents: seq<Consent>, reply: Reply, moment: int)
    requires Accounted(m, calls, row) && m.status == Queued && Reaches(m, consents, true)
    requires c.message == row && c.channel == m.channel && c.ok == reply.ok
    ensures Accounted(DispatchOne(m, consents, true, reply, moment).0, calls + [c], row)
  {
    OneMoreCall(calls, c);
  }

  lemma OtherRowsStayAccounted(m: Message, calls: seq<Call>, row: Id, c: Call)
    requires Accounted(m, calls, row) && c.message != row
    ensures Accounted(m, calls + [c], row)
  {
    OneMoreCall(calls, c);
  }

  lemma OneMoreNeverBack(calls: seq<Call>, c: Call)
    requires NeverBack(calls) && (c.channel == WhatsApp ==> CallsOn(calls, c.message, Sms) == 0)
    ensures NeverBack(calls + [c])
  {
    forall j | 0 <= j < |calls| && calls[j].message == c.message && calls[j].channel == Sms
      ensures c.channel == Sms
    {
      CallLeavesCount(calls, j);
    }
  }

  lemma TryKeepsCounted(f: Floor, m: Move)
    requires Counted(f) && m.Try?
    ensures Counted(Apply(f, m))
  {
    var g := Apply(f, m);
    if g != f {
      var row, h := m.row, f.holds[m.row];
      AnAttemptIsPaidFor(h.copy, f.consents, m.phone, m.reply, h.moment);
      assert Accounted(f.box[row], f.calls, row);
      if Reaches(h.copy, f.consents, m.phone) {
        var call := g.calls[|f.calls|];
        TriedRowIsAccounted(h.copy, f.calls, row, call, f.consents, m.reply, h.moment);
        OneMoreNeverBack(f.calls, call);
        forall i | 0 <= i < |g.box| ensures Accounted(g.box[i], g.calls, i) {
          if i != row { OtherRowsStayAccounted(f.box[i], f.calls, i, call); }
        }
      }
    }
  }

  lemma QueueKeepsCounted(f: Floor, m: Move)
    requires Counted(f) && m.Queue?
    ensures Counted(Apply(f, m))
  {
    CountsComeFromCalls(f.calls, |f.box|);
    var g := Apply(f, m);
    forall i | 0 <= i < |g.box| ensures Accounted(g.box[i], g.calls, i) {
      if i < |f.box| { assert g.box[i] == f.box[i]; }
    }
  }

  lemma StepKeepsCounted(f: Floor, m: Move)
    requires Counted(f)
    ensures Counted(Apply(f, m))
  {
    if m.Try? { TryKeepsCounted(f, m); }
    else if m.Queue? { QueueKeepsCounted(f, m); }
    else if m.Take? { }
    else if m.Commit? { }
    else if m.Receipt? { }
    else if m.Defer? { }
    else if m.Stop? { }
    else { }
  }

  lemma StepKeepsLicensed(f: Floor, m: Move)
    requires CopiesAreFresh(f) && Licensed(f)
    ensures Licensed(Apply(f, m))
  {
    if m.Stop? && !Waits(f, m) {
      MoreConsentsKeepCallsProper(f.calls, f.consents, Consent(m.candidate, ForPlacement, false));
    } else if m.Record? {
      MoreConsentsKeepCallsProper(f.calls, f.consents, m.consent);
    } else if m.Try? {
      TryKeepsLicensed(f, m);
    }
  }

  lemma TryKeepsLicensed(f: Floor, m: Move)
    requires CopiesAreFresh(f) && Licensed(f) && m.Try?
    ensures Licensed(Apply(f, m))
  {
    if Apply(f, m) != f && !f.holds[m.row].tried {
      assert Uses(f.box[m.row].to, f.box[m.row].template);
      assert f.consents[..|f.consents|] == f.consents;
    }
  }

  lemma StepKeepsSteady(f: Floor, m: Move)
    requires Steady(f)
    ensures Steady(Apply(f, m))
  {
    StepKeepsCounted(f, m);
    StepKeepsLicensed(f, m);
  }

  lemma {:induction false} RunKeepsSteady(f: Floor, moves: seq<Move>)
    requires Steady(f)
    ensures Steady(Run(f, moves))
    decreases |moves|
  {
    if moves != [] {
      StepKeepsSteady(f, moves[0]);
      RunKeepsSteady(Apply(f, moves[0]), moves[1..]);
    }
  }

  // ---- the claims over whole runs ---------------------------------------------------------

  /** From an empty outbox, under any interleaving: at most five calls on each channel for a
      message, WhatsApp before SMS and never back, at most one call that succeeds, exactly one
      once the row says sent or delivered, and none ever for a row cancelled or suppressed. */
  lemma AtMostOnceOverEveryRun(moves: seq<Move>, row: Id)
    requires row < |Run(Opening, moves).box|
    ensures var f := Run(Opening, moves);
      && CallsOn(f.calls, row, WhatsApp) <= MAX_ATTEMPTS
      && CallsOn(f.calls, row, WhatsApp) + CallsOn(f.calls, row, Sms) <= 2 * MAX_ATTEMPTS
      && Successes(f.calls, row) <= 1
      && (f.box[row].status in {Sent, Delivered} ==> Successes(f.calls, row) == 1)
      && (f.box[row].status in {CalledOff, Suppressed} ==> Successes(f.calls, row) == 0)
      && NeverBack(f.calls)
      && ProperCalls(f.calls, f.consents)
  {
    RunKeepsSteady(Opening, moves);
    var f := Run(Opening, moves);
    assert Accounted(f.box[row], f.calls, row);
  }

  /** Statuses from which nothing is ever sent again. */
  predicate Closed(m: Message) { m.status != Queued }

  /** Over one move: rows stay where they are, a closed row stays closed, and no closed row is
      called about. */
  lemma ClosedStaysClosed(f: Floor, m: Move, row: Id)
    requires Steady(f) && row < |f.box| && Closed(f.box[row])
    ensures var g := Apply(f, m);
      && row < |g.box| && Closed(g.box[row])
      && (f.box[row].status in {CalledOff, Suppressed} ==> g.box[row].status == f.box[row].status)
      && CallsOn(g.calls, row, WhatsApp) == CallsOn(f.calls, row, WhatsApp)
      && CallsOn(g.calls, row, Sms) == CallsOn(f.calls, row, Sms)
  {
    var g := Apply(f, m);
    if m.Try? && |g.calls| > |f.calls| {
      assert g.calls == f.calls + [g.calls[|f.calls|]];
      OneMoreCall(f.calls, g.calls[|f.calls|]);
    }
  }

  /** Once sent, cancelled, suppressed or failed, a message is never sent again, whatever
      dispatchers were still holding. */
  lemma {:induction false} NothingFollowsClosing(f: Floor, moves: seq<Move>, row: Id)
    requires Steady(f) && row < |f.box| && Closed(f.box[row])
    ensures var g := Run(f, moves);
      && row < |g.box| && Closed(g.box[row])
      && (f.box[row].status in {CalledOff, Suppressed} ==> g.box[row].status == f.box[row].status)
      && CallsOn(g.calls, row, WhatsApp) == CallsOn(f.calls, row, WhatsApp)
      && CallsOn(g.calls, row, Sms) == CallsOn(f.calls, row, Sms)
    decreases |moves|
  {
    if moves != [] {
      StepKeepsSteady(f, moves[0]);
      ClosedStaysClosed(f, moves[0], row);
      NothingFollowsClosing(Apply(f, moves[0]), moves[1..], row);
    }
  }

  /** A later row of placement consent in the candidate's favour. */
  predicate Grants(m: Move, candidate: Id) {
    m == Record(Consent(candidate, ForPlacement, true))
  }

  lemma SilentStep(f: Floor, m: Move, candidate: Id)
    requires Steady(f) && !HasConsent(f.consents, candidate) && !Grants(m, candidate)
    ensures var g := Apply(f, m);
      && !HasConsent(g.consents, candidate)
      && |f.calls| <= |g.calls| && g.calls[..|f.calls|] == f.calls
      && forall k :: |f.calls| <= k < |g.calls| ==> g.calls[k].to != Candidate(candidate)
  {
    var g := Apply(f, m);
    if m.Try? {
      SilentTry(f, m, candidate);
    } else if m.Record? || m.Stop? {
      if |g.consents| > |f.consents| { assert g.consents[..|g.consents| - 1] == f.consents; }
    }
  }

  lemma SilentTry(f: Floor, m: Move, candidate: Id)
    requires Steady(f) && m.Try? && !HasConsent(f.consents, candidate)
    ensures var g := Apply(f, m);
      && g.consents == f.consents
      && |f.calls| <= |g.calls| && g.calls[..|f.calls|] == f.calls
      && forall k :: |f.calls| <= k < |g.calls| ==> g.calls[k].to != Candidate(candidate)
  {
    if Apply(f, m) != f && !f.holds[m.row].tried {
      assert Uses(f.box[m.row].to, f.box[m.row].template);
    }
  }

  /** While a candidate's consent is withdrawn, and until it is granted again, no dispatcher
      calls the provider about her, whatever is queued, deferred, retried or already claimed. */
  lemma {:induction false} SilenceUntilConsent(f: Floor, moves: seq<Move>, candidate: Id)
    requires Steady(f) && !HasConsent(f.consents, candidate)
    requires forall m :: m in moves ==> !Grants(m, candidate)
    ensures var g := Run(f, moves);
      |f.calls| <= |g.calls| && forall k :: |f.calls| <= k < |g.calls| ==> g.calls[k].to != Candidate(candidate)
    decreases |moves|
  {
    if moves != [] {
      var f1 := Apply(f, moves[0]);
      StepKeepsSteady(f, moves[0]);
      SilentStep(f, moves[0], candidate);
      SilenceUntilConsent(f1, moves[1..], candidate);
      var g := Run(f, moves);
      forall k | |f.calls| <= k < |g.calls| ensures g.calls[k].to != Candidate(candidate) {
        if k < |f1.calls| { CallsAreKept(f1, moves[1..], k); }
      }
    }
  }

  /** From an empty outbox, under any interleaving: every call to a candidate was made while the
      latest of her placement-consent rows granted it. */
  lemma EveryCallHadItsConsent(moves: seq<Move>, k: nat)
    requires k < |Run(Opening, moves).calls| && Run(Opening, moves).calls[k].to.Candidate?
    ensures var f := Run(Opening, moves);
      f.calls[k].seen <= |f.consents| && HasConsent(f.consents[..f.calls[k].seen], f.calls[k].to.id)
  {
    RunKeepsSteady(Opening, moves);
    assert ProperCall(Run(Opening, moves).calls[k], Run(Opening, moves).consents);
  }

  lemma {:induction false} CallsAreKept(f: Floor, moves: seq<Move>, k: nat)
    requires k < |f.calls|
    ensures k < |Run(f, moves).calls| && Run(f, moves).calls[k] == f.calls[k]
    decreases |moves|
  {
    if moves != [] { CallsAreKept(Apply(f, moves[0]), moves[1..], k); }
  }

  /** A STOP that gets through withdraws the consent and leaves nothing queued to the sender. */
  lemma StopSilences(f: Floor, candidate: Id)
    requires !Waits(f, Stop(candidate))
    ensures var g := Apply(f, Stop(candidate));
      !HasConsent(g.consents, candidate)
      && forall i :: 0 <= i < |g.box| && g.box[i].to == Candidate(candidate) ==> Closed(g.box[i])
  {
  }

  /** The row lock is what makes this true: two dispatchers acting on one claimed copy would
      both get the message through. */
  lemma TwoCopiesSendTwice(f: Floor, row: Id, moment: int, reply: Reply)
    requires Steady(f) && row < |f.box| && f.box[row].status == Queued
    requires Reaches(f.box[row], f.consents, true) && reply.ok
    ensures var once := TryCopy(f, row, f.box[row], moment, true, reply);
      Successes(TryCopy(once, row, f.box[row], moment, true, reply).calls, row) == 2
  {
    var copy := f.box[row];
    var once := TryCopy(f, row, copy, moment, true, reply);
    var twice := TryCopy(once, row, copy, moment, true, reply);
    OneMoreCall(f.calls, once.calls[|f.calls|]);
    assert once.calls == f.calls + [once.calls[|f.calls|]];
    OneMoreCall(once.calls, twice.calls[|once.calls|]);
    assert twice.calls == once.calls + [twice.calls[|once.calls|]];
  }
}
