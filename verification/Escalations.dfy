/** Escalations: an owner, a deadline, and one alert when the deadline is missed. */
module Escalations {
  import opened Base
  import opened Sorting

  const HOUR := 3_600_000_000
  const ALERT_BURST_LIMIT := 5

  datatype Kind = Harassment | SafetyIssue | PayIssue | TransportIssue | HoursIssue | OtherIssue

  function ResponseTime(k: Kind): int {
    match k
    case Harassment => 2 * HOUR
    case SafetyIssue => 4 * HOUR
    case PayIssue => 24 * HOUR
    case _ => 48 * HOUR
  }

  datatype Role = Owner | Admin | Supervisor | Coordinator | ReadOnly

  const ANY: set<Role> := {Owner, Admin, Supervisor, Coordinator, ReadOnly}

  /** Staff rows stand in the order they were created. */
  datatype Staff = Staff(role: Role, active: bool)

  datatype Stage = Open | Acknowledged | Resolved | ClosedNoAction

  datatype Escalation = Escalation(kind: Kind, owner: Id, raisedAt: int, respondBy: int, stage: Stage,
                                   acknowledgedAt: Option<int>, alertedAt: Option<int>)

  /** One message to a member of staff; a summary names its kinds and how many of each. */
  datatype Alert = Alert(to: Id, about: seq<Id>, counts: Option<map<Kind, nat>>)

  datatype Refusal = NobodyToOwnIt | NotOpen | SaysNothing | AlreadyClosed

  // ---- who owns it, who is told ----------------------------------------------------

  predicate Fits(staff: seq<Staff>, i: Id, roles: set<Role>, but: Option<Id>) {
    i < |staff| && staff[i].active && staff[i].role in roles && but != Some(i)
  }

  /** The first active member of staff in one of these roles, skipping one person. */
  function FirstActive(staff: seq<Staff>, roles: set<Role>, but: Option<Id>, from: nat := 0): (found: Option<Id>)
    requires from <= |staff|
    decreases |staff| - from
    ensures found.None? <==> forall i: Id :: i >= from ==> !Fits(staff, i, roles, but)
    ensures found.Some? ==> found.value >= from && Fits(staff, found.value, roles, but)
    ensures found.Some? ==> forall j: Id :: from <= j < found.value ==> !Fits(staff, j, roles, but)
  {
    if from == |staff| then None
    else if Fits(staff, from, roles, but) then Some(from)
    else FirstActive(staff, roles, but, from + 1)
  }

  function DefaultOwner(staff: seq<Staff>, kind: Kind): Option<Id> {
    var supervisor :=
      if kind == Harassment || kind == SafetyIssue then None else FirstActive(staff, {Supervisor}, None);
    if supervisor.Some? then supervisor
    else
      var owner := FirstActive(staff, {Owner}, None);
      if owner.Some? then owner else FirstActive(staff, ANY, None)
  }

  predicate Senior(s: Staff) { s.active && (s.role == Owner || s.role == Admin) }

  /** Somebody above whoever missed it, owners before admins; failing that, whoever there is. */
  function BreachRecipient(staff: seq<Staff>, owner: Id): Option<Id> {
    var another := FirstActive(staff, {Owner}, Some(owner));
    if another.Some? then another
    else
      var admin := FirstActive(staff, {Admin}, Some(owner));
      if admin.Some? then admin else FirstActive(staff, {Owner, Admin}, None)
  }

  predicate NobodyActive(staff: seq<Staff>) { forall i :: 0 <= i < |staff| ==> !staff[i].active }

  lemma FitsAny(staff: seq<Staff>)
    ensures forall i: Id :: Fits(staff, i, ANY, None) <==> i < |staff| && staff[i].active
    ensures forall i: Id :: Fits(staff, i, {Owner, Admin}, None) <==> i < |staff| && Senior(staff[i])
  {
    forall r: Role ensures r in ANY {
      match r { case Owner => case Admin => case Supervisor => case Coordinator => case ReadOnly => }
    }
  }

  /** An escalation always finds an owner unless nobody at all is active. A breach always finds
      a senior recipient unless there is none, and goes back to the one who missed it only when
      they are the only senior left. */
  lemma RoutingIsTotal(staff: seq<Staff>, kind: Kind, owner: Id)
    ensures DefaultOwner(staff, kind).None? <==> NobodyActive(staff)
    ensures BreachRecipient(staff, owner).None? <==> forall i :: 0 <= i < |staff| ==> !Senior(staff[i])
    ensures var to := BreachRecipient(staff, owner);
      to.Some? ==> to.value < |staff| && Senior(staff[to.value])
    ensures BreachRecipient(staff, owner) == Some(owner) <==>
      owner < |staff| && Senior(staff[owner]) && forall i :: 0 <= i < |staff| && i != owner ==> !Senior(staff[i])
  {
    FitsAny(staff);
    forall i: Id | i < |staff| && Senior(staff[i]) && i != owner
      ensures Fits(staff, i, {Owner}, Some(owner)) || Fits(staff, i, {Admin}, Some(owner))
    {
    }
  }

  // ---- the order of the staff rows ---------------------------------------------------

  ghost predicate Serves(s: Staff, role: Role) { s.active && s.role == role }

  /** Nobody active in this role, apart from whoever is left out. */
  ghost predicate NoneServes(staff: seq<Staff>, role: Role, but: Option<Id>) {
    forall i :: 0 <= i < |staff| && Serves(staff[i], role) ==> but == Some(i)
  }

  /** The one of them created first. */
  ghost predicate Earliest(staff: seq<Staff>, i: Id, role: Role, but: Option<Id>) {
    && i < |staff| && Serves(staff[i], role) && but != Some(i)
    && (forall j :: 0 <= j < i && Serves(staff[j], role) ==> but == Some(j))
  }

  ghost predicate EarliestOfAll(staff: seq<Staff>, i: Id) {
    i < |staff| && staff[i].active && forall j :: 0 <= j < i ==> !staff[j].active
  }

  ghost predicate EarliestSenior(staff: seq<Staff>, i: Id) {
    i < |staff| && Senior(staff[i]) && forall j :: 0 <= j < i ==> !Senior(staff[j])
  }

  /** Harassment and safety are for the owner of the business. Anything else is for a supervisor,
      and for the owner where there is none. Without either, for whoever is there longest. */
  ghost predicate AnswersFor(staff: seq<Staff>, kind: Kind, i: Id) {
    var owned := Earliest(staff, i, Owner, None) || (NoneServes(staff, Owner, None) && EarliestOfAll(staff, i));
    if kind in {Harassment, SafetyIssue} then owned
    else Earliest(staff, i, Supervisor, None) || (NoneServes(staff, Supervisor, None) && owned)
  }

  /** Of a missed deadline hears another owner; an admin, where there is none; and where whoever
      missed it is the only senior left, they do. */
  ghost predicate HearsOf(staff: seq<Staff>, owner: Id, i: Id) {
    || Earliest(staff, i, Owner, Some(owner))
    || (NoneServes(staff, Owner, Some(owner)) && Earliest(staff, i, Admin, Some(owner)))
    || (NoneServes(staff, Owner, Some(owner)) && NoneServes(staff, Admin, Some(owner)) && EarliestSenior(staff, i))
  }

  lemma FirstIsEarliest(staff: seq<Staff>, role: Role, but: Option<Id>)
    ensures forall i: Id :: FirstActive(staff, {role}, but) == Some(i) <==> Earliest(staff, i, role, but)
    ensures FirstActive(staff, {role}, but) == None <==> NoneServes(staff, role, but)
  {
    assert forall i: Id :: Fits(staff, i, {role}, but) <==> i < |staff| && Serves(staff[i], role) && but != Some(i);
  }

  lemma FirstOfAllIsEarliest(staff: seq<Staff>, i: Id)
    ensures FirstActive(staff, ANY, None) == Some(i) <==> EarliestOfAll(staff, i)
  {
    FitsAny(staff);
  }

  lemma FirstSeniorIsEarliest(staff: seq<Staff>, i: Id)
    ensures FirstActive(staff, {Owner, Admin}, None) == Some(i) <==> EarliestSenior(staff, i)
  {
    FitsAny(staff);
  }

  /** Who owns a report, and who hears of a missed deadline, by the roles and the order of the
      staff rows alone. */
  lemma ReportsGoByRank(staff: seq<Staff>, kind: Kind, owner: Id, i: Id)
    ensures DefaultOwner(staff, kind) == Some(i) <==> AnswersFor(staff, kind, i)
    ensures BreachRecipient(staff, owner) == Some(i) <==> HearsOf(staff, owner, i)
  {
    OwnerByRank(staff, kind, i);
    RecipientByRank(staff, owner, i);
  }

  lemma OwnerByRank(staff: seq<Staff>, kind: Kind, i: Id)
    ensures DefaultOwner(staff, kind) == Some(i) <==> AnswersFor(staff, kind, i)
  {
    FirstIsEarliest(staff, Owner, None);
    FirstIsEarliest(staff, Supervisor, None);
    FirstOfAllIsEarliest(staff, i);
  }

  lemma RecipientByRank(staff: seq<Staff>, owner: Id, i: Id)
    ensures BreachRecipient(staff, owner) == Some(i) <==> HearsOf(staff, owner, i)
  {
    FirstIsEarliest(staff, Owner, Some(owner));
    FirstIsEarliest(staff, Admin, Some(owner));
    FirstSeniorIsEarliest(staff, i);
  }

  // ---- counting ------------------------------------------------------------------------

  /** How often an escalation is named in these alerts. */
  function Mentions(alerts: seq<Alert>, id: Id): nat {
    if alerts == [] then 0
    else Mentions(alerts[..|alerts| - 1], id) + multiset(alerts[|alerts| - 1].about)[id]
  }

  function AlertsTo(alerts: seq<Alert>, r: Id): nat {
    if alerts == [] then 0
    else AlertsTo(alerts[..|alerts| - 1], r) + (if alerts[|alerts| - 1].to == r then 1 else 0)
  }

  lemma OneMoreAlert(alerts: seq<Alert>, a: Alert)
    ensures forall id :: Mentions(alerts + [a], id) == Mentions(alerts, id) + multiset(a.about)[id]
    ensures forall r :: AlertsTo(alerts + [a], r) == AlertsTo(alerts, r) + (if a.to == r then 1 else 0)
  {
    assert (alerts + [a])[..|alerts|] == alerts;
  }

  ghost predicate InTable(ids: seq<Id>, es: seq<Escalation>) {
    forall k :: 0 <= k < |ids| ==> ids[k] < |es|
  }

  function KindCount(es: seq<Escalation>, ids: seq<Id>, k: Kind): nat
    requires InTable(ids, es)
  {
    if ids == [] then 0
    else KindCount(es, ids[..|ids| - 1], k) + (if es[ids[|ids| - 1]].kind == k then 1 else 0)
  }

  function CountedIn(counts: map<Kind, nat>, k: Kind): nat { if k in counts then counts[k] else 0 }

  function CountsTotal(counts: map<Kind, nat>): nat {
    CountedIn(counts, Harassment) + CountedIn(counts, SafetyIssue) + CountedIn(counts, PayIssue)
      + CountedIn(counts, TransportIssue) + CountedIn(counts, HoursIssue) + CountedIn(counts, OtherIssue)
  }

  predicate Goes(staff: seq<Staff>, es: seq<Escalation>, id: Id, r: Id) {
    id < |es| && BreachRecipient(staff, es[id].owner) == Some(r)
  }

  /** The escalations one recipient is told about, in order of deadline. */
  function RowsFor(staff: seq<Staff>, es: seq<Escalation>, ids: seq<Id>, r: Id): seq<Id>
    requires InTable(ids, es)
  {
    if ids == [] then []
    else
      var last := if BreachRecipient(staff, es[ids[|ids| - 1]].owner) == Some(r) then [ids[|ids| - 1]] else [];
      RowsFor(staff, es, ids[..|ids| - 1], r) + last
  }

  lemma {:induction false} RowsForCounts(staff: seq<Staff>, es: seq<Escalation>, ids: seq<Id>, r: Id)
    requires InTable(ids, es)
    ensures forall id: Id :: multiset(RowsFor(staff, es, ids, r))[id] == (if Goes(staff, es, id, r) then multiset(ids)[id] else 0)
    ensures InTable(RowsFor(staff, es, ids, r), es)
  {
    if ids != [] {
      RowsForCounts(staff, es, ids[..|ids| - 1], r);
      assert ids == ids[..|ids| - 1] + [ids[|ids| - 1]];
    }
  }

  function TotalRows(staff: seq<Staff>, es: seq<Escalation>, ids: seq<Id>, order: seq<Id>): nat
    requires InTable(ids, es)
  {
    if order == [] then 0
    else TotalRows(staff, es, ids, order[..|order| - 1]) + |RowsFor(staff, es, ids, order[|order| - 1])|
  }

  lemma {:induction false} OneMoreRow(staff: seq<Staff>, es: seq<Escalation>, ids: seq<Id>, order: seq<Id>)
    requires ids != [] && InTable(ids, es)
    requires forall j, k :: 0 <= j < k < |order| ==> order[j] != order[k]
    ensures var r := BreachRecipient(staff, es[ids[|ids| - 1]].owner);
      TotalRows(staff, es, ids, order) == TotalRows(staff, es, ids[..|ids| - 1], order)
        + (if r.Some? && r.value in order then 1 else 0)
  {
    if order != [] {
      OneMoreRow(staff, es, ids, order[..|order| - 1]);
      assert order == order[..|order| - 1] + [order[|order| - 1]];
    }
  }

  /** Grouping by recipient loses no routable row: the groups and the unroutable add up. */
  lemma {:induction false} GroupsAddUp(staff: seq<Staff>, es: seq<Escalation>, ids: seq<Id>, order: seq<Id>)
    requires InTable(ids, es)
    requires forall j, k :: 0 <= j < k < |order| ==> order[j] != order[k]
    requires forall k :: 0 <= k < |ids| ==>
      var r := BreachRecipient(staff, es[ids[k]].owner);
      r.Some? ==> r.value in order
    ensures TotalRows(staff, es, ids, order) + Unroutable(staff, es, ids) == |ids|
  {
    if ids == [] {
      NoRows(staff, es, order);
    } else {
      var front := ids[..|ids| - 1];
      GroupsAddUp(staff, es, front, order);
      OneMoreRow(staff, es, ids, order);
    }
  }

  lemma {:induction false} NoRows(staff: seq<Staff>, es: seq<Escalation>, order: seq<Id>)
    ensures TotalRows(staff, es, [], order) == 0
  {
    if order != [] { NoRows(staff, es, order[..|order| - 1]); }
  }

  function Unroutable(staff: seq<Staff>, es: seq<Escalation>, ids: seq<Id>): nat
    requires InTable(ids, es)
  {
    if ids == [] then 0
    else
      var last := BreachRecipient(staff, es[ids[|ids| - 1]].owner);
      Unroutable(staff, es, ids[..|ids| - 1]) + (if last.None? then 1 else 0)
  }

  // ---- the sweep's selection --------------------------------------------------------------

  predicate Breached(e: Escalation, now: int) {
    e.stage == Open && e.acknowledgedAt.None? && e.respondBy < now && e.alertedAt.None?
  }

  datatype Row = Row(id: Id, respondBy: int)

  predicate Sooner(a: Row, b: Row) { a.respondBy <= b.respondBy }

  function BreachedRows(es: seq<Escalation>, now: int): seq<Row> {
    if es == [] then []
    else
      var last := es[|es| - 1];
      BreachedRows(es[..|es| - 1], now) + (if Breached(last, now) then [Row(|es| - 1, last.respondBy)] else [])
  }

  function IdsOf(rows: seq<Row>): seq<Id> { seq(|rows|, i requires 0 <= i < |rows| => rows[i].id) }

  /** The missed deadlines, the oldest first. */
  function BreachedIds(es: seq<Escalation>, now: int): seq<Id> {
    IdsOf(StableSort(BreachedRows(es, now), Sooner))
  }

  predicate Selected(es: seq<Escalation>, now: int, r: Row) {
    r.id < |es| && Breached(es[r.id], now) && r.respondBy == es[r.id].respondBy
  }

  lemma {:induction false} BreachedRowsAreRows(es: seq<Escalation>, now: int)
    ensures forall r :: r in BreachedRows(es, now) ==> r.id < |es|
    ensures forall r :: multiset(BreachedRows(es, now))[r] == (if Selected(es, now, r) then 1 else 0)
  {
    if es != [] { BreachedRowsAreRows(es[..|es| - 1], now); }
  }

  lemma {:induction false} IdsCount(rows: seq<Row>, es: seq<Escalation>)
    requires forall r :: r in rows ==> r.id < |es| && r.respondBy == es[r.id].respondBy
    ensures forall id: Id :: multiset(IdsOf(rows))[id] == (if id < |es| then multiset(rows)[Row(id, es[id].respondBy)] else 0)
  {
    if rows != [] {
      var front, last := rows[..|rows| - 1], rows[|rows| - 1];
      assert rows == front + [last];
      IdsCount(front, es);
      assert IdsOf(rows) == IdsOf(front) + [last.id];
    }
  }

  /** Each breached escalation is selected exactly once, and nothing else is. */
  lemma BreachedOnce(es: seq<Escalation>, now: int)
    ensures InTable(BreachedIds(es, now), es)
    ensures forall id: Id ::
      multiset(BreachedIds(es, now))[id] == (if id < |es| && Breached(es[id], now) then 1 else 0)
  {
    var rows := BreachedRows(es, now);
    var sorted := StableSort(rows, Sooner);
    BreachedRowsAreRows(es, now);
    StableSortSorts(rows, Sooner);
    forall r | r in sorted ensures r.id < |es| && r.respondBy == es[r.id].respondBy {
      assert r in multiset(sorted);
      assert multiset(rows)[r] > 0;
    }
    IdsCount(sorted, es);
    forall k | 0 <= k < |sorted| ensures BreachedIds(es, now)[k] < |es| { assert sorted[k] in sorted; }
  }

  /** The kinds counted for a group add up to the group. */
  lemma {:induction false} KindsAddUp(es: seq<Escalation>, ids: seq<Id>)
    requires InTable(ids, es)
    ensures KindCount(es, ids, Harassment) + KindCount(es, ids, SafetyIssue) + KindCount(es, ids, PayIssue)
      + KindCount(es, ids, TransportIssue) + KindCount(es, ids, HoursIssue) + KindCount(es, ids, OtherIssue) == |ids|
  {
    if ids != [] { KindsAddUp(es, ids[..|ids| - 1]); }
  }

  ghost predicate NamesKinds(a: Alert, es: seq<Escalation>) {
    && InTable(a.about, es)
    && (a.counts.None? ==> |a.about| == 1)
    && (a.counts.Some? ==>
          && |a.about| > 5
          && (forall k :: CountedIn(a.counts.value, k) == KindCount(es, a.about, k))
          && CountsTotal(a.counts.value) == |a.about|)
  }

  lemma {:induction false} KindsDoNotChange(es: seq<Escalation>, fs: seq<Escalation>, ids: seq<Id>, k: Kind)
    requires InTable(ids, es) && |es| <= |fs| && forall i :: 0 <= i < |es| ==> es[i].kind == fs[i].kind
    ensures KindCount(es, ids, k) == KindCount(fs, ids, k)
  {
    if ids != [] { KindsDoNotChange(es, fs, ids[..|ids| - 1], k); }
  }

  /** A missed deadline somebody can be told about. */
  predicate ToAlert(staff: seq<Staff>, e: Escalation, now: int) {
    Breached(e, now) && BreachRecipient(staff, e.owner).Some?
  }

  predicate Reported(staff: seq<Staff>, es: seq<Escalation>, now: int, id: Id) {
    id < |es| && ToAlert(staff, es[id], now)
  }

  /** Among the rows whose recipient is in this list. */
  predicate Reached(staff: seq<Staff>, es: seq<Escalation>, ids: seq<Id>, order: seq<Id>, id: Id) {
    id < |es| && id in ids &&
      var r := BreachRecipient(staff, es[id].owner);
      r.Some? && r.value in order
  }

  /** The dictionary of the sweep: each recipient once, with exactly the rows that go to them. */
  ghost predicate Grouped(staff: seq<Staff>, es: seq<Escalation>, ids: seq<Id>, order: seq<Id>, groups: map<Id, seq<Id>>)
    requires InTable(ids, es)
  {
    && (forall j, k :: 0 <= j < k < |order| ==> order[j] != order[k])
    && (forall r :: r in order <==> r in groups)
    && (forall r :: r in groups ==> groups[r] != [] && groups[r] == RowsFor(staff, es, ids, r))
    && (forall r: Id :: r !in groups ==> RowsFor(staff, es, ids, r) == [])
  }

  /** More rows than one recipient is told of one by one. */
  predicate Bursts(staff: seq<Staff>, es: seq<Escalation>, ids: seq<Id>, r: Id)
    requires InTable(ids, es)
  {
    |RowsFor(staff, es, ids, r)| > ALERT_BURST_LIMIT
  }

  function BurstsAmong(staff: seq<Staff>, es: seq<Escalation>, ids: seq<Id>, order: seq<Id>): nat
    requires InTable(ids, es)
  {
    if order == [] then 0
    else
      BurstsAmong(staff, es, ids, order[..|order| - 1]) + (if Bursts(staff, es, ids, order[|order| - 1]) then 1 else 0)
  }

  function Bursting(staff: seq<Staff>, es: seq<Escalation>, ids: seq<Id>, order: seq<Id>): set<Id>
    requires InTable(ids, es)
  {
    set r | r in order && Bursts(staff, es, ids, r)
  }

  lemma {:induction false} BurstsAreCounted(staff: seq<Staff>, es: seq<Escalation>, ids: seq<Id>, order: seq<Id>)
    requires InTable(ids, es)
    requires forall j, k :: 0 <= j < k < |order| ==> order[j] != order[k]
    ensures BurstsAmong(staff, es, ids, order) == |Bursting(staff, es, ids, order)|
  {
    if order != [] {
      var front, last := order[..|order| - 1], order[|order| - 1];
      BurstsAreCounted(staff, es, ids, front);
      assert order == front + [last] && last !in front;
      assert Bursting(staff, es, ids, order) ==
        Bursting(staff, es, ids, front) + (if Bursts(staff, es, ids, last) then {last} else {});
    }
  }

  lemma OneMoreGroup(staff: seq<Staff>, es: seq<Escalation>, ids: seq<Id>, order: seq<Id>, j: nat)
    requires InTable(ids, es) && j < |order|
    ensures var rows := RowsFor(staff, es, ids, order[j]);
      && TotalRows(staff, es, ids, order[..j + 1]) == TotalRows(staff, es, ids, order[..j]) + |rows|
      && BurstsAmong(staff, es, ids, order[..j + 1]) ==
           BurstsAmong(staff, es, ids, order[..j]) + (if |rows| > ALERT_BURST_LIMIT then 1 else 0)
    ensures order[..j + 1] == order[..j] + [order[j]]
  {
    assert order[..j + 1][..j] == order[..j];
  }

  /** Only staff receive anything, and everybody who does is in the grouping. */
  lemma BurstsAreStaff(staff: seq<Staff>, es: seq<Escalation>, ids: seq<Id>, order: seq<Id>, groups: map<Id, seq<Id>>)
    requires InTable(ids, es) && Grouped(staff, es, ids, order, groups)
    ensures BurstsAmong(staff, es, ids, order) == |set r | 0 <= r < |staff| && Bursts(staff, es, ids, r)|
  {
    BurstsAreCounted(staff, es, ids, order);
    forall r: Id | Bursts(staff, es, ids, r) ensures r in order && r < |staff| {
      RowsForCounts(staff, es, ids, r);
      var rows := RowsFor(staff, es, ids, r);
      assert rows[0] in multiset(rows) && Goes(staff, es, rows[0], r);
      RoutingIsTotal(staff, es[rows[0]].kind, es[rows[0]].owner);
    }
    assert (set r | 0 <= r < |staff| && Bursts(staff, es, ids, r)) == Bursting(staff, es, ids, order);
  }

  lemma RowsForMore(staff: seq<Staff>, es: seq<Escalation>, ids: seq<Id>, id: Id, r: Id)
    requires InTable(ids, es) && id < |es|
    ensures InTable(ids + [id], es)
    ensures RowsFor(staff, es, ids + [id], r) ==
      if BreachRecipient(staff, es[id].owner) == Some(r) then RowsFor(staff, es, ids, r) + [id] else RowsFor(staff, es, ids, r)
  {
    assert (ids + [id])[..|ids|] == ids;
  }

  lemma GroupedWithoutRecipient(staff: seq<Staff>, es: seq<Escalation>, ids: seq<Id>, order: seq<Id>,
                                groups: map<Id, seq<Id>>, id: Id)
    requires InTable(ids, es) && id < |es| && Grouped(staff, es, ids, order, groups)
    requires BreachRecipient(staff, es[id].owner).None?
    ensures InTable(ids + [id], es) && Grouped(staff, es, ids + [id], order, groups)
  {
    forall r: Id { RowsForMore(staff, es, ids, id, r); }
  }

  lemma GroupGrows(staff: seq<Staff>, es: seq<Escalation>, ids: seq<Id>, order: seq<Id>,
                   groups: map<Id, seq<Id>>, id: Id, r: Id)
    requires InTable(ids, es) && id < |es| && Grouped(staff, es, ids, order, groups)
    requires BreachRecipient(staff, es[id].owner) == Some(r) && r in groups
    ensures InTable(ids + [id], es) && Grouped(staff, es, ids + [id], order, groups[r := groups[r] + [id]])
  {
    var after := groups[r := groups[r] + [id]];
    forall s: Id
      ensures s in after ==> after[s] != [] && after[s] == RowsFor(staff, es, ids + [id], s)
      ensures s !in after ==> RowsFor(staff, es, ids + [id], s) == []
    {
      RowsForMore(staff, es, ids, id, s);
    }
  }

  lemma GroupAppears(staff: seq<Staff>, es: seq<Escalation>, ids: seq<Id>, order: seq<Id>,
                     groups: map<Id, seq<Id>>, id: Id, r: Id)
    requires InTable(ids, es) && id < |es| && Grouped(staff, es, ids, order, groups)
    requires BreachRecipient(staff, es[id].owner) == Some(r) && r !in groups
    ensures InTable(ids + [id], es) && Grouped(staff, es, ids + [id], order + [r], groups[r := [id]])
  {
    var after := groups[r := [id]];
    forall s: Id
      ensures s in after ==> after[s] != [] && after[s] == RowsFor(staff, es, ids + [id], s)
      ensures s !in after ==> RowsFor(staff, es, ids + [id], s) == []
    {
      RowsForMore(staff, es, ids, id, s);
    }
  }

  lemma {:induction false} RowHasItsGroup(staff: seq<Staff>, es: seq<Escalation>, ids: seq<Id>, k: nat)
    requires InTable(ids, es) && k < |ids| && BreachRecipient(staff, es[ids[k]].owner).Some?
    ensures RowsFor(staff, es, ids, BreachRecipient(staff, es[ids[k]].owner).value) != []
  {
    RowsForCounts(staff, es, ids, BreachRecipient(staff, es[ids[k]].owner).value);
    assert ids[k] in multiset(ids);
  }

  lemma NamesKindsKept(a: Alert, es: seq<Escalation>, fs: seq<Escalation>)
    requires NamesKinds(a, es) && |es| == |fs| && forall i :: 0 <= i < |es| ==> es[i].kind == fs[i].kind
    ensures NamesKinds(a, fs)
  {
    forall kind { KindsDoNotChange(es, fs, a.about, kind); }
  }

  /** The groups reach exactly the missed deadlines that have somebody to go to. */
  lemma RoutableIsReached(staff: seq<Staff>, es: seq<Escalation>, ids: seq<Id>, order: seq<Id>, groups: map<Id, seq<Id>>,
                          now: int)
    requires ids == BreachedIds(es, now) && InTable(ids, es) && Grouped(staff, es, ids, order, groups)
    ensures forall id: Id :: Reached(staff, es, ids, order, id) <==> Reported(staff, es, now, id)
    ensures TotalRows(staff, es, ids, order) + Unroutable(staff, es, ids) == |ids|
  {
    BreachedOnce(es, now);
    forall k | 0 <= k < |ids|
      ensures var r := BreachRecipient(staff, es[ids[k]].owner); r.Some? ==> r.value in order
    {
      if BreachRecipient(staff, es[ids[k]].owner).Some? { RowHasItsGroup(staff, es, ids, k); }
    }
    GroupsAddUp(staff, es, ids, order);
    forall id: Id ensures Reached(staff, es, ids, order, id) <==> Reported(staff, es, now, id) {
      assert id in ids <==> id in multiset(ids);
      if id in ids { var k :| 0 <= k < |ids| && ids[k] == id; }
    }
  }

  /** What telling one recipient changes: their rows are marked and named once each, they get
      no more messages than the limit, and nobody else gets any. */
  ghost predicate ToldTo(es: seq<Escalation>, alerts: seq<Alert>, es': seq<Escalation>, alerts': seq<Alert>,
                         to: Id, rows: seq<Id>, now: int)
  {
    && |es'| == |es|
    && (forall i :: 0 <= i < |es| ==> es'[i] == Marked(es[i], i in rows, now))
    && |alerts| <= |alerts'| && alerts'[..|alerts|] == alerts
    && (forall id: Id :: Mentions(alerts', id) == Mentions(alerts, id) + multiset(rows)[id])
    && (forall r: Id :: r != to ==> AlertsTo(alerts', r) == AlertsTo(alerts, r))
    && AlertsTo(alerts', to) <= AlertsTo(alerts, to) + ALERT_BURST_LIMIT
    && (forall k :: |alerts| <= k < |alerts'| ==> alerts'[k].to == to && NamesKinds(alerts'[k], es'))
    && (forall k :: |alerts| <= k < |alerts'| ==> Among(alerts'[k].about, rows))
  }

  /** The messages of one recipient, before their rows are marked. */
  ghost predicate Written(es: seq<Escalation>, alerts: seq<Alert>, alerts': seq<Alert>, to: Id, rows: seq<Id>) {
    && |alerts| <= |alerts'| && alerts'[..|alerts|] == alerts
    && (forall id: Id :: Mentions(alerts', id) == Mentions(alerts, id) + multiset(rows)[id])
    && (forall r: Id :: r != to ==> AlertsTo(alerts', r) == AlertsTo(alerts, r))
    && AlertsTo(alerts', to) <= AlertsTo(alerts, to) + ALERT_BURST_LIMIT
    && (forall k :: |alerts| <= k < |alerts'| ==> alerts'[k].to == to && NamesKinds(alerts'[k], es))
    && (forall k :: |alerts| <= k < |alerts'| ==> Among(alerts'[k].about, rows))
  }

  lemma WrittenThenMarked(es: seq<Escalation>, alerts: seq<Alert>, es': seq<Escalation>, alerts': seq<Alert>,
                          to: Id, rows: seq<Id>, now: int)
    requires Written(es, alerts, alerts', to, rows) && |es'| == |es|
    requires forall i :: 0 <= i < |es| ==> es'[i] == Marked(es[i], i in rows, now)
    ensures ToldTo(es, alerts, es', alerts', to, rows, now)
  {
    forall k | |alerts| <= k < |alerts'| ensures NamesKinds(alerts'[k], es') { NamesKindsKept(alerts'[k], es, es'); }
  }

  ghost predicate Among(ids: seq<Id>, rows: seq<Id>) { forall id :: id in ids ==> id in rows }

  /** Sent to the one person who is to hear of everything it names. */
  ghost predicate RightlyTold(staff: seq<Staff>, es: seq<Escalation>, a: Alert) {
    forall id :: id in a.about ==> id < |es| && HearsOf(staff, es[id].owner, a.to)
  }

  lemma TheirRowsAreRightlyTold(staff: seq<Staff>, es: seq<Escalation>, ids: seq<Id>, a: Alert)
    requires InTable(ids, es) && Among(a.about, RowsFor(staff, es, ids, a.to))
    ensures RightlyTold(staff, es, a)
  {
    RowsForCounts(staff, es, ids, a.to);
    forall id | id in a.about ensures id < |es| && HearsOf(staff, es[id].owner, a.to) {
      assert id in multiset(RowsFor(staff, es, ids, a.to)) && Goes(staff, es, id, a.to);
      RecipientByRank(staff, es[id].owner, a.to);
    }
  }

  function Share(staff: seq<Staff>, es: seq<Escalation>, ids: seq<Id>, order: seq<Id>, id: Id): nat {
    if Reached(staff, es, ids, order, id) then multiset(ids)[id] else 0
  }

  /** The same, for everybody in a list of recipients. */
  ghost predicate ToldAll(staff: seq<Staff>, es: seq<Escalation>, alerts: seq<Alert>, es': seq<Escalation>,
                          alerts': seq<Alert>, ids: seq<Id>, order: seq<Id>, now: int)
  {
    && |es'| == |es|
    && (forall i :: 0 <= i < |es| ==> es'[i] == Marked(es[i], Reached(staff, es, ids, order, i), now))
    && |alerts| <= |alerts'| && alerts'[..|alerts|] == alerts
    && (forall id: Id :: Mentions(alerts', id) == Mentions(alerts, id) + Share(staff, es, ids, order, id))
    && (forall r: Id :: AlertsTo(alerts', r) <= AlertsTo(alerts, r) + (if r in order then ALERT_BURST_LIMIT else 0))
    && (forall k :: |alerts| <= k < |alerts'| ==> NamesKinds(alerts'[k], es') && RightlyTold(staff, es, alerts'[k]))
  }

  lemma ReachedOneMore(staff: seq<Staff>, es: seq<Escalation>, ids: seq<Id>, order: seq<Id>, r: Id)
    requires InTable(ids, es) && r !in order
    ensures forall id: Id :: id in RowsFor(staff, es, ids, r) <==>
      Reached(staff, es, ids, order + [r], id) && !Reached(staff, es, ids, order, id)
    ensures forall id: Id ::
      Share(staff, es, ids, order + [r], id) == Share(staff, es, ids, order, id) + multiset(RowsFor(staff, es, ids, r))[id]
  {
    RowsForCounts(staff, es, ids, r);
    forall id: Id ensures id in RowsFor(staff, es, ids, r) <==> Goes(staff, es, id, r) && id in ids {
      assert id in RowsFor(staff, es, ids, r) <==> id in multiset(RowsFor(staff, es, ids, r));
      assert id in ids <==> id in multiset(ids);
    }
  }

  lemma ToldOneMore(staff: seq<Staff>, es: seq<Escalation>, alerts: seq<Alert>, es1: seq<Escalation>,
                    alerts1: seq<Alert>, es2: seq<Escalation>, alerts2: seq<Alert>,
                    ids: seq<Id>, order: seq<Id>, r: Id, now: int)
    requires InTable(ids, es) && r !in order
    requires ToldAll(staff, es, alerts, es1, alerts1, ids, order, now)
    requires ToldTo(es1, alerts1, es2, alerts2, r, RowsFor(staff, es, ids, r), now)
    ensures ToldAll(staff, es, alerts, es2, alerts2, ids, order + [r], now)
  {
    ReachedOneMore(staff, es, ids, order, r);
    forall k | |alerts| <= k < |alerts2| ensures NamesKinds(alerts2[k], es2) && RightlyTold(staff, es, alerts2[k]) {
      if k < |alerts1| {
        assert alerts2[k] == alerts2[..|alerts1|][k] == alerts1[k];
        NamesKindsKept(alerts1[k], es1, es2);
      } else {
        TheirRowsAreRightlyTold(staff, es, ids, alerts2[k]);
      }
    }
    assert alerts2[..|alerts|] == alerts2[..|alerts1|][..|alerts|];
  }

  /** The sweep after telling the first so many groups, with its counts. */
  ghost predicate ToldSoFar(staff: seq<Staff>, es: seq<Escalation>, alerts: seq<Alert>, es': seq<Escalation>,
                            alerts': seq<Alert>, ids: seq<Id>, order: seq<Id>, j: nat, alerted: nat, summarised: nat,
                            now: int)
    requires InTable(ids, es)
  {
    && j <= |order|
    && alerted == TotalRows(staff, es, ids, order[..j]) && summarised == BurstsAmong(staff, es, ids, order[..j])
    && ToldAll(staff, es, alerts, es', alerts', ids, order[..j], now)
  }

  lemma ToldOneMoreGroup(staff: seq<Staff>, es: seq<Escalation>, alerts: seq<Alert>, es1: seq<Escalation>,
                         alerts1: seq<Alert>, es2: seq<Escalation>, alerts2: seq<Alert>, ids: seq<Id>, order: seq<Id>,
                         j: nat, alerted: nat, summarised: nat, more: nat, now: int)
    requires InTable(ids, es) && j < |order| && forall i, k :: 0 <= i < k < |order| ==> order[i] != order[k]
    requires ToldSoFar(staff, es, alerts, es1, alerts1, ids, order, j, alerted, summarised, now)
    requires ToldTo(es1, alerts1, es2, alerts2, order[j], RowsFor(staff, es, ids, order[j]), now)
    requires more == if Bursts(staff, es, ids, order[j]) then 1 else 0
    ensures ToldSoFar(staff, es, alerts, es2, alerts2, ids, order, j + 1,
                      alerted + |RowsFor(staff, es, ids, order[j])|, summarised + more, now)
  {
    OneMoreGroup(staff, es, ids, order, j);
    assert order[j] !in order[..j];
    ToldOneMore(staff, es, alerts, es1, alerts1, es2, alerts2, ids, order[..j], order[j], now);
  }

  /** Within how many hours somebody is to answer. */
  ghost function HoursPromised(k: Kind): int {
    if k == Harassment then 2 else if k == SafetyIssue then 4 else if k == PayIssue then 24 else 48
  }

  /** Every escalation is named in as many alerts as it is marked for, one or none, and every
      deadline is the kind's response time. */
  ghost predicate Consistent(es: seq<Escalation>, alerts: seq<Alert>) {
    && (forall id: Id :: Mentions(alerts, id) == (if id < |es| && es[id].alertedAt.Some? then 1 else 0))
    && (forall i :: 0 <= i < |es| ==> es[i].respondBy == es[i].raisedAt + HoursPromised(es[i].kind) * 3_600_000_000)
  }

  /** A whole sweep: what is marked, who is told, how often, in terms of the escalations before. */
  ghost predicate Swept(staff: seq<Staff>, es: seq<Escalation>, alerts: seq<Alert>, es': seq<Escalation>,
                        alerts': seq<Alert>, now: int)
  {
    && |es'| == |es|
    && (forall i :: 0 <= i < |es| ==>
          es'[i] == if MustBeTold(staff, es[i], now) then es[i].(alertedAt := Some(now)) else es[i])
    && |alerts| <= |alerts'| && alerts'[..|alerts|] == alerts
    && (forall id: Id ::
          Mentions(alerts', id) == Mentions(alerts, id) + (if id < |es| && MustBeTold(staff, es[id], now) then 1 else 0))
    && (forall r: Id :: AlertsTo(alerts', r) <= AlertsTo(alerts, r) + 5)
    && (forall k :: |alerts| <= k < |alerts'| ==> NamesKinds(alerts'[k], es') && RightlyTold(staff, es, alerts'[k]))
  }

  /** Nobody has answered it in time, nobody has been told of that, and there is somebody to tell. */
  ghost predicate MustBeTold(staff: seq<Staff>, e: Escalation, now: int) {
    && e.stage == Open && e.acknowledgedAt == None && e.alertedAt == None && e.respondBy < now
    && exists i :: 0 <= i < |staff| && staff[i].active && (staff[i].role == Owner || staff[i].role == Admin)
  }

  lemma ToAlertIsMustBeTold(staff: seq<Staff>, e: Escalation, now: int)
    ensures ToAlert(staff, e, now) <==> MustBeTold(staff, e, now)
  {
    RoutingIsTotal(staff, e.kind, e.owner);
    assert MustBeTold(staff, e, now) ==> exists i :: 0 <= i < |staff| && Senior(staff[i]);
  }

  lemma TellingAllSweeps(staff: seq<Staff>, es: seq<Escalation>, alerts: seq<Alert>, es': seq<Escalation>,
                         alerts': seq<Alert>, ids: seq<Id>, order: seq<Id>, groups: map<Id, seq<Id>>, now: int)
    requires ids == BreachedIds(es, now) && InTable(ids, es) && Grouped(staff, es, ids, order, groups)
    requires ToldAll(staff, es, alerts, es', alerts', ids, order, now)
    ensures Swept(staff, es, alerts, es', alerts', now)
    ensures TotalRows(staff, es, ids, order) + Unroutable(staff, es, ids) == |ids|
  {
    BreachedOnce(es, now);
    RoutableIsReached(staff, es, ids, order, groups, now);
    forall i | 0 <= i < |es| ensures ToAlert(staff, es[i], now) <==> MustBeTold(staff, es[i], now) {
      ToAlertIsMustBeTold(staff, es[i], now);
    }
    forall id: Id ensures Share(staff, es, ids, order, id) == if Reported(staff, es, now, id) then 1 else 0 {
      assert Reached(staff, es, ids, order, id) <==> Reported(staff, es, now, id);
    }
  }

  /** Across any sweep an escalation is alerted at most once in its life. */
  lemma SweepKeepsConsistent(staff: seq<Staff>, es: seq<Escalation>, alerts: seq<Alert>, es': seq<Escalation>,
                             alerts': seq<Alert>, now: int)
    requires Consistent(es, alerts) && Swept(staff, es, alerts, es', alerts', now)
    ensures Consistent(es', alerts')
    ensures forall i :: 0 <= i < |es'| && Breached(es'[i], now) ==> BreachRecipient(staff, es'[i].owner).None?
  {
  }

  function Marked(e: Escalation, mark: bool, now: int): Escalation {
    if mark then e.(alertedAt := Some(now)) else e
  }

  function NewEscalation(kind: Kind, owner: Id, now: int): Escalation {
    Escalation(kind, owner, now, now + ResponseTime(kind), Open, None, None)
  }

  predicate Blank(s: string) { forall k :: 0 <= k < |s| ==> s[k] in " \t\n\r" }

  class Watch {
    var staff: seq<Staff>
    var escalations: seq<Escalation>
    var alerts: seq<Alert>

    ghost predicate Valid() reads this { Consistent(escalations, alerts) }

    constructor (staff: seq<Staff>)
      ensures Valid() && this.staff == staff && escalations == [] && alerts == []
    {
      this.staff, escalations, alerts := staff, [], [];
    }

    /** Refused exactly when nobody is named and nobody is active; the deadline is the kind's. */
    method Raise(kind: Kind, named: Option<Id>, now: int) returns (r: Result<Id, Refusal>)
      requires Valid()
      modifies this`escalations
      ensures Valid()
      ensures r.Err? <==> named.None? && NobodyActive(staff)
      ensures r.Err? ==> r.error == NobodyToOwnIt && escalations == old(escalations)
      ensures r.Ok? ==> r.value == |old(escalations)| && |escalations| == |old(escalations)| + 1
      ensures r.Ok? ==> escalations[..r.value] == old(escalations)
      ensures r.Ok? ==>
        var respondBy := now + HoursPromised(kind) * 3_600_000_000;
        escalations[r.value] == Escalation(kind, escalations[r.value].owner, now, respondBy, Open, None, None)
      ensures r.Ok? && named.Some? ==> escalations[r.value].owner == named.value
      ensures r.Ok? && named.None? ==> AnswersFor(staff, kind, escalations[r.value].owner)
    {
      RoutingIsTotal(staff, kind, 0);
      var owner := if named.Some? then named else DefaultOwner(staff, kind);
      if owner.None? { return Err(NobodyToOwnIt); }
      OwnerByRank(staff, kind, owner.value);
      r := Ok(|escalations|);
      escalations := escalations + [NewEscalation(kind, owner.value, now)];
    }

    method Acknowledge(id: Id, now: int) returns (r: Result<(), Refusal>)
      requires Valid()
      modifies this`escalations
      ensures Valid()
      ensures r.Ok? <==> id < |old(escalations)| && old(escalations)[id].stage == Open
      ensures escalations == if r.Err? then old(escalations)
        else old(escalations)[id := old(escalations)[id].(stage := Acknowledged, acknowledgedAt := Some(now))]
    {
      if id >= |escalations| || escalations[id].stage != Open { return Err(NotOpen); }
      escalations := escalations[id := escalations[id].(stage := Acknowledged, acknowledgedAt := Some(now))];
      r := Ok(());
    }

    /** Closing needs an account of what was done, and stops the clock if nobody had. */
    method Resolve(id: Id, resolution: string, noAction: bool, now: int) returns (r: Result<(), Refusal>)
      requires Valid()
      modifies this`escalations
      ensures Valid()
      ensures r.Ok? <==>
        !Blank(resolution) && id < |old(escalations)| && old(escalations)[id].stage in {Open, Acknowledged}
      ensures escalations == if r.Err? then old(escalations)
        else
          var e := old(escalations)[id];
          old(escalations)[id := e.(stage := if noAction then ClosedNoAction else Resolved,
            acknowledgedAt := Some(if e.acknowledgedAt.Some? then e.acknowledgedAt.value else now))]
    {
      if Blank(resolution) { return Err(SaysNothing); }
      if id >= |escalations| || escalations[id].stage !in {Open, Acknowledged} { return Err(AlreadyClosed); }
      var e := escalations[id];
      escalations := escalations[id := e.(stage := if noAction then ClosedNoAction else Resolved,
        acknowledgedAt := if e.acknowledgedAt.Some? then e.acknowledgedAt else Some(now))];
      r := Ok(());
    }

    method CountKinds(rows: seq<Id>) returns (counts: map<Kind, nat>)
      requires InTable(rows, escalations)
      ensures forall k :: CountedIn(counts, k) == KindCount(escalations, rows, k)
      ensures CountsTotal(counts) == |rows|
    {
      counts := map[];
      for i := 0 to |rows|
        invariant forall k :: CountedIn(counts, k) == KindCount(escalations, rows[..i], k)
      {
        assert rows[..i + 1][..i] == rows[..i];
        var kind := escalations[rows[i]].kind;
        counts := counts[kind := CountedIn(counts, kind) + 1];
      }
      assert rows[..|rows|] == rows;
      KindsAddUp(escalations, rows);
    }

    method Mark(rows: seq<Id>, now: int)
      requires InTable(rows, escalations)
      modifies this`escalations
      ensures |escalations| == |old(escalations)|
      ensures forall i :: 0 <= i < |escalations| ==> escalations[i] == Marked(old(escalations)[i], i in rows, now)
    {
      escalations := seq(|escalations|, i requires 0 <= i < |escalations| reads this =>
        Marked(escalations[i], i in rows, now));
    }

    method TellEach(to: Id, rows: seq<Id>)
      requires InTable(rows, escalations) && |rows| <= ALERT_BURST_LIMIT
      modifies this`alerts
      ensures Written(escalations, old(alerts), alerts, to, rows)
    {
      for i := 0 to |rows|
        invariant |old(alerts)| <= |alerts| && alerts[..|old(alerts)|] == old(alerts)
        invariant forall id: Id :: Mentions(alerts, id) == Mentions(old(alerts), id) + multiset(rows[..i])[id]
        invariant forall r: Id :: AlertsTo(alerts, r) == AlertsTo(old(alerts), r) + (if r == to then i else 0)
        invariant forall k :: |old(alerts)| <= k < |alerts| ==> alerts[k].to == to && NamesKinds(alerts[k], escalations)
        invariant forall k :: |old(alerts)| <= k < |alerts| ==> Among(alerts[k].about, rows)
      {
        var a := Alert(to, [rows[i]], None);
        OneMoreAlert(alerts, a);
        assert rows[..i + 1] == rows[..i] + [rows[i]];
        alerts := alerts + [a];
      }
      assert rows[..|rows|] == rows;
    }

    method TellOnce(to: Id, rows: seq<Id>)
      requires InTable(rows, escalations) && |rows| > ALERT_BURST_LIMIT
      modifies this`alerts
      ensures |alerts| == |old(alerts)| + 1 && Written(escalations, old(alerts), alerts, to, rows)
    {
      var counts := CountKinds(rows);
      var a := Alert(to, rows, Some(counts));
      OneMoreAlert(alerts, a);
      alerts := alerts + [a];
    }

    /** One recipient's share of a sweep: a message each, or one summary when there are more
        than the limit. */
    method Tell(to: Id, rows: seq<Id>, now: int) returns (summarised: nat)
      requires InTable(rows, escalations)
      modifies this`escalations, this`alerts
      ensures ToldTo(old(escalations), old(alerts), escalations, alerts, to, rows, now)
      ensures summarised == if |rows| > ALERT_BURST_LIMIT then 1 else 0
    {
      if |rows| <= ALERT_BURST_LIMIT {
        TellEach(to, rows);
        summarised := 0;
      } else {
        TellOnce(to, rows);
        summarised := 1;
      }
      Mark(rows, now);
      WrittenThenMarked(old(escalations), old(alerts), escalations, alerts, to, rows, now);
    }

    method GroupByRecipient(ids: seq<Id>) returns (order: seq<Id>, groups: map<Id, seq<Id>>, unroutable: nat)
      requires InTable(ids, escalations)
      ensures Grouped(staff, escalations, ids, order, groups)
      ensures unroutable == Unroutable(staff, escalations, ids)
    {
      order, groups, unroutable := [], map[], 0;
      for i := 0 to |ids|
        invariant Grouped(staff, escalations, ids[..i], order, groups)
        invariant unroutable == Unroutable(staff, escalations, ids[..i])
      {
        assert ids[..i + 1] == ids[..i] + [ids[i]] && ids[..i + 1][..i] == ids[..i];
        var recipient := BreachRecipient(staff, escalations[ids[i]].owner);
        if recipient.None? {
          GroupedWithoutRecipient(staff, escalations, ids[..i], order, groups, ids[i]);
          unroutable := unroutable + 1;
        } else {
          var r := recipient.value;
          if r in groups {
            GroupGrows(staff, escalations, ids[..i], order, groups, ids[i], r);
            groups := groups[r := groups[r] + [ids[i]]];
          } else {
            GroupAppears(staff, escalations, ids[..i], order, groups, ids[i], r);
            order, groups := order + [r], groups[r := [ids[i]]];
          }
        }
      }
      assert ids[..|ids|] == ids;
    }

    method TellAll(ids: seq<Id>, order: seq<Id>, groups: map<Id, seq<Id>>, now: int)
        returns (alerted: nat, summarised: nat)
      requires InTable(ids, escalations) && Grouped(staff, escalations, ids, order, groups)
      modifies this`escalations, this`alerts
      ensures alerted == TotalRows(staff, old(escalations), ids, order)
      ensures summarised == BurstsAmong(staff, old(escalations), ids, order)
      ensures ToldAll(staff, old(escalations), old(alerts), escalations, alerts, ids, order, now)
    {
      ghost var es := escalations;
      alerted, summarised := 0, 0;
      for j := 0 to |order|
        invariant ToldSoFar(staff, es, old(alerts), escalations, alerts, ids, order, j, alerted, summarised, now)
      {
        var r := order[j];
        assert r in groups;
        RowsForCounts(staff, es, ids, r);
        label before:
        var more := Tell(r, groups[r], now);
        ToldOneMoreGroup(staff, es, old(alerts), old@before(escalations), old@before(alerts), escalations, alerts,
                         ids, order, j, alerted, summarised, more, now);
        alerted := alerted + |groups[r]|;
        summarised := summarised + more;
      }
      assert order[..|order|] == order;
    }

    /** One run over the missed deadlines. Every one that has a senior to go to is named in
        exactly one new message and marked; the others are left to be found again; no recipient
        gets more than the limit; the numbers reported add up, and as many summaries are reported
        as there are members of staff with more than the limit to hear. */
    method AlertOnMissedResponseTimes(now: int)
        returns (alerted: nat, unroutable: nat, breached: nat, summarised: nat)
      requires Valid()
      modifies this`escalations, this`alerts
      ensures Valid()
      ensures alerted + unroutable == breached == |BreachedIds(old(escalations), now)|
      ensures InTable(BreachedIds(old(escalations), now), old(escalations))
      ensures summarised ==
        |set r | 0 <= r < |staff| && Bursts(staff, old(escalations), BreachedIds(old(escalations), now), r)|
      ensures Swept(staff, old(escalations), old(alerts), escalations, alerts, now)
    {
      var ids := BreachedIds(escalations, now);
      BreachedOnce(escalations, now);
      breached := |ids|;
      var order, groups;
      order, groups, unroutable := GroupByRecipient(ids);
      BurstsAreStaff(staff, escalations, ids, order, groups);
      alerted, summarised := TellAll(ids, order, groups, now);
      TellingAllSweeps(staff, old(escalations), old(alerts), escalations, alerts, ids, order, groups, now);
      SweepKeepsConsistent(staff, old(escalations), old(alerts), escalations, alerts, now);
    }
  }
}
