/** The inbound queue as the application runs it: rows inserted and updated in place, and a run
    over what is pending that counts what was done. */
module Switchboard {
  import opened Base
  import opened Lifecycle
  import opened Inbound
  import E = Escalations
  import O = Outbox

  /** What a run reports under: the note, without naming the placement. */
  datatype Wording = Of(note: Note) | OfAnswer(accepted: bool)

  function WordingOf(note: Note): Wording {
    if note.OfferAnswered? then OfAnswer(note.accepted) else Of(note)
  }

  /** The letters nobody has handled, oldest first, from this row on. */
  function Pending(inbox: seq<Letter>, limit: nat, from: nat := 0): (ids: seq<Id>)
    requires from <= |inbox|
    ensures |ids| <= limit
    ensures forall k :: 0 <= k < |ids| ==> from <= ids[k] < |inbox| && !inbox[ids[k]].handled
    ensures forall j, k :: 0 <= j < k < |ids| ==> ids[j] < ids[k]
    ensures forall i :: from <= i < |inbox| && !inbox[i].handled ==>
      i in ids || (|ids| == limit && forall k :: 0 <= k < |ids| ==> ids[k] < i)
    decreases |inbox| - from
  {
    if from == |inbox| || limit == 0 then []
    else if inbox[from].handled then Pending(inbox, limit, from + 1)
    else [from] + Pending(inbox, limit - 1, from + 1)
  }

  /** The line after handling these letters in turn. */
  function WorkedThrough(d: Line, ids: seq<Id>, read: Reader, notices: Id -> Notice): Line
    decreases |ids|
  {
    if ids == [] then d
    else
      var last := |ids| - 1;
      Handled(WorkedThrough(d, ids[..last], read, notices), ids[last], read, notices(ids[last])).0
  }

  function NotesMade(d: Line, ids: seq<Id>, read: Reader, notices: Id -> Notice): (notes: seq<Note>)
    ensures |notes| == |ids|
    decreases |ids|
  {
    if ids == [] then []
    else
      var last := |ids| - 1;
      NotesMade(d, ids[..last], read, notices)
      + [Handled(WorkedThrough(d, ids[..last], read, notices), ids[last], read, notices(ids[last])).1]
  }

  function TimesSaid(notes: seq<Note>, w: Wording): nat {
    if notes == [] then 0
    else TimesSaid(notes[..|notes| - 1], w) + (if WordingOf(notes[|notes| - 1]) == w then 1 else 0)
  }

  function Reported(results: map<Wording, nat>, w: Wording): nat { if w in results then results[w] else 0 }

  ghost predicate Counts(results: map<Wording, nat>, notes: seq<Note>) {
    forall w :: Reported(results, w) == TimesSaid(notes, w)
  }

  lemma OneMoreSaid(results: map<Wording, nat>, notes: seq<Note>, note: Note)
    requires Counts(results, notes)
    ensures Counts(results[WordingOf(note) := Reported(results, WordingOf(note)) + 1], notes + [note])
  {
    assert (notes + [note])[..|notes|] == notes;
    var now := results[WordingOf(note) := Reported(results, WordingOf(note)) + 1];
    forall w ensures Reported(now, w) == TimesSaid(notes + [note], w) { assert Reported(results, w) == TimesSaid(notes, w); }
  }

  /** These letters were handled while pending, each as its note says, and no other was touched. */
  ghost predicate Reached(inbox: seq<Letter>, after: seq<Letter>, ids: seq<Id>, notes: seq<Note>) {
    && |after| == |inbox| && |notes| == |ids|
    && (forall i :: 0 <= i < |inbox| && i !in ids ==> after[i] == inbox[i])
    && (forall k :: 0 <= k < |ids| ==> ids[k] < |inbox| && notes[k] != AlreadyHandled && (after[ids[k]].handled <==> Effect(notes[k])))
  }

  ghost predicate Rising(ids: seq<Id>) {
    forall j, k :: 0 <= j < k < |ids| ==> ids[j] < ids[k]
  }

  ghost predicate AllPending(inbox: seq<Letter>, ids: seq<Id>) {
    forall k :: 0 <= k < |ids| ==> ids[k] < |inbox| && !inbox[ids[k]].handled
  }

  lemma OneMoreReached(inbox: seq<Letter>, was: seq<Letter>, now: seq<Letter>, ids: seq<Id>, notes: seq<Note>, note: Note)
    requires ids != [] && Rising(ids) && AllPending(inbox, ids)
    requires Reached(inbox, was, ids[..|ids| - 1], notes)
    requires var id := ids[|ids| - 1];
      && |now| == |was| && note != AlreadyHandled && (now[id].handled <==> Effect(note))
      && (forall i :: 0 <= i < |was| && i != id ==> now[i] == was[i])
    ensures Reached(inbox, now, ids, notes + [note])
  {
    var id, front := ids[|ids| - 1], ids[..|ids| - 1];
    assert ids == front + [id];
    assert id !in front;
  }

  lemma NoteOfAPendingLetter(d: Line, iid: Id, read: Reader, n: Notice)
    requires iid < |d.inbox| && !d.inbox[iid].handled
    ensures Handled(d, iid, read, n).1 != AlreadyHandled
  {
  }

  /** Working through the pending letters reaches each of them while it is still pending: an
      effect on one never handles another. */
  lemma {:induction false} EachIsReachedPending(d: Line, ids: seq<Id>, read: Reader, notices: Id -> Notice)
    requires AllPending(d.inbox, ids) && Rising(ids)
    ensures Reached(d.inbox, WorkedThrough(d, ids, read, notices).inbox, ids, NotesMade(d, ids, read, notices))
    decreases |ids|
  {
    if ids != [] {
      var last := |ids| - 1;
      var front := ids[..last];
      EachIsReachedPending(d, front, read, notices);
      var was := WorkedThrough(d, front, read, notices);
      assert ids[last] !in front && was.inbox[ids[last]] == d.inbox[ids[last]];
      LastIsReached(d, was, ids, read, notices(ids[last]), NotesMade(d, front, read, notices));
    }
  }

  lemma LastIsReached(d: Line, was: Line, ids: seq<Id>, read: Reader, n: Notice, notes: seq<Note>)
    requires ids != [] && Rising(ids) && AllPending(d.inbox, ids)
    requires Reached(d.inbox, was.inbox, ids[..|ids| - 1], notes)
    ensures var (now, note) := Handled(was, ids[|ids| - 1], read, n);
      Reached(d.inbox, now.inbox, ids, notes + [note])
  {
    var id, front := ids[|ids| - 1], ids[..|ids| - 1];
    assert id !in front && !was.inbox[id].handled;
    HandledExactlyWhenDone(was, id, read, n);
    NoteOfAPendingLetter(was, id, read, n);
    var (now, note) := Handled(was, id, read, n);
    OneMoreReached(d.inbox, was.inbox, now.inbox, ids, notes, note);
  }

  lemma OneMoreWorked(d: Line, ids: seq<Id>, i: nat, read: Reader, notices: Id -> Notice)
    requires i < |ids|
    ensures var (now, note) := Handled(WorkedThrough(d, ids[..i], read, notices), ids[i], read, notices(ids[i]));
      && WorkedThrough(d, ids[..i + 1], read, notices) == now
      && NotesMade(d, ids[..i + 1], read, notices) == NotesMade(d, ids[..i], read, notices) + [note]
  {
    assert ids[..i + 1][..i] == ids[..i];
  }

  class Switchboard {
    var db: Db
    var consents: seq<O.Consent>
    var inbox: seq<Letter>
    var staff: seq<E.Staff>
    var reports: seq<Report>

    ghost function Snapshot(): Line
      reads this
    {
      Line(db, consents, inbox, staff, reports)
    }

    constructor (db: Db, consents: seq<O.Consent>, staff: seq<E.Staff>)
      ensures Snapshot() == Line(db, consents, [], staff, [])
    {
      this.db, this.consents, this.inbox, this.staff, this.reports := db, consents, [], staff, [];
    }

    /** The row it was stored in, or nothing for a repeated delivery. */
    method RecordInbound(ref: Option<Id>, body: string, candidate: Option<Id>, contact: Option<Id>) returns (stored: Option<Id>)
      modifies `inbox
      ensures Snapshot() == Receive(old(Snapshot()), ref, body, candidate, contact)
      ensures stored == if Delivered(old(inbox), ref) then None else Some(|old(inbox)|)
    {
      var i := 0;
      while i < |inbox| && ref.Some?
        invariant 0 <= i <= |inbox|
        invariant forall k :: 0 <= k < i ==> inbox[k].ref != ref
      {
        if inbox[i].ref == ref { return None; }
        i := i + 1;
      }
      stored := Some(|inbox|);
      inbox := inbox + [Letter(ref, body, candidate, contact, false, None)];
    }

    method Finish(iid: Id, note: Note, handled: bool)
      requires iid < |inbox|
      modifies `inbox
      ensures Snapshot() == Inbound.Finish(old(Snapshot()), iid, note, handled)
    {
      inbox := inbox[iid := inbox[iid].(handled := handled, note := Some(note))];
    }

    method RaiseFor(iid: Id, kind: E.Kind, candidate: Option<Id>) returns (note: Note)
      requires iid < |inbox|
      modifies this
      ensures (Snapshot(), note) == Raise(old(Snapshot()), iid, kind, candidate)
    {
      var owner := E.DefaultOwner(staff, kind);
      if owner.None? {
        note := NobodyToOwnTheReport;
        Finish(iid, note, false);
      } else {
        var about := if candidate.Some? then Latest(db.placements, candidate.value, false) else None;
        reports := reports + [Report(iid, kind, candidate, about, owner.value)];
        note := if candidate.Some? then RaisedEscalation(kind) else RaisedUnattached(kind);
        Finish(iid, note, true);
      }
    }

    method WithdrawConsent(iid: Id, c: Id) returns (note: Note)
      requires iid < |inbox|
      modifies this
      ensures (Snapshot(), note) == Withdraw(old(Snapshot()), iid, c)
    {
      consents := consents + [O.Consent(c, O.ForPlacement, false)];
      db := Step(db, DoStop(c));
      note := ConsentWithdrawn;
      Finish(iid, note, true);
    }

    method AnswerOffer(iid: Id, c: Id, accepted: bool, n: Notice) returns (note: Note)
      requires iid < |inbox|
      modifies this
      ensures (Snapshot(), note) == Answer(old(Snapshot()), iid, c, accepted, n)
    {
      var pending := Latest(db.placements, c, true);
      if pending.None? {
        note := NoOfferOutstanding;
        Finish(iid, note, false);
        return;
      }
      match Respond(db, pending.value, accepted, n) {
        case Err(_) =>
          note := AnswerRefused;
          Finish(iid, note, false);
        case Ok(after) =>
          db := after;
          note := OfferAnswered(pending.value, accepted);
          Finish(iid, note, true);
      }
    }

    method Handle(iid: Id, read: Reader, n: Notice) returns (note: Note)
      modifies this
      ensures (Snapshot(), note) == Handled(old(Snapshot()), iid, read, n)
      ensures iid < |old(inbox)| && !old(inbox)[iid].handled ==>
        Followed(old(Snapshot()), Snapshot(), iid, note, read(old(inbox)[iid].body), n)
      ensures iid >= |old(inbox)| || old(inbox)[iid].handled ==> note == AlreadyHandled && Snapshot() == old(Snapshot())
    {
      if iid < |inbox| && !inbox[iid].handled { HandledExactlyWhenDone(Snapshot(), iid, read, n); }
      if iid >= |inbox| || inbox[iid].handled { return AlreadyHandled; }
      var letter := inbox[iid];
      var meaning := read(letter.body);
      if letter.candidate.None? && letter.contact.None? {
        if meaning.Issue? && Safeguarding(meaning.kind) {
          note := RaiseFor(iid, meaning.kind, None);
          return;
        }
        note := UnknownNumber;
        Finish(iid, note, false);
        return;
      }
      if letter.candidate.Some? {
        match meaning {
          case Issue(kind) => note := RaiseFor(iid, kind, letter.candidate); return;
          case OptOut => note := WithdrawConsent(iid, letter.candidate.value); return;
          case Yes => note := AnswerOffer(iid, letter.candidate.value, true, n); return;
          case No => note := AnswerOffer(iid, letter.candidate.value, false, n); return;
          case Unclear =>
        }
      }
      note := NotUnderstood;
      Finish(iid, note, false);
    }

    /** One run over what is pending, with how often each thing was done. */
    method HandlePending(limit: nat, read: Reader, notices: Id -> Notice) returns (results: map<Wording, nat>)
      modifies this
      ensures var pending := Pending(old(inbox), limit);
        && Snapshot() == WorkedThrough(old(Snapshot()), pending, read, notices)
        && Counts(results, NotesMade(old(Snapshot()), pending, read, notices))
        && Reached(old(inbox), inbox, pending, NotesMade(old(Snapshot()), pending, read, notices))
    {
      ghost var before := Snapshot();
      var pending := Pending(inbox, limit);
      results := map[];
      EachIsReachedPending(before, pending, read, notices);
      var i := 0;
      while i < |pending|
        invariant 0 <= i <= |pending|
        invariant Snapshot() == WorkedThrough(before, pending[..i], read, notices)
        invariant Counts(results, NotesMade(before, pending[..i], read, notices))
      {
        ghost var notes := NotesMade(before, pending[..i], read, notices);
        OneMoreWorked(before, pending, i, read, notices);
        var note := Handle(pending[i], read, notices(pending[i]));
        OneMoreSaid(results, notes, note);
        results := results[WordingOf(note) := Reported(results, WordingOf(note)) + 1];
        i := i + 1;
      }
      assert pending[..i] == pending;
    }
  }
}
