/** The reconciliation pass: every membership of a snapshot of the store is
    invoiced, and then at most one reminder is chosen for it from the
    snapshot's view of the membership and today's date. */
module Scheduler {
  import opened Schema
  import opened Repository
  import opened AppService

  /** Reminders for the annual due date go out this many days before it. */
  const ReminderLeadDays: int := 7

  /** The day the annual (and first-month) reminder is sent. */
  function ReminderDate(m: Membership): Day {
    m.dueDate - ReminderLeadDays
  }

  /** Which reminder, if any, a membership is due today. */
  datatype Choice = FirstMonth | Monthly | Annual | Quiet

  /** Picks the reminder for `m` on `today`: the first-month reminder on the
      reminder day of a first-month membership; otherwise the monthly reminder
      on the monthly due date; otherwise the annual reminder on the reminder
      day; otherwise none. */
  function ChooseReminder(m: Membership, today: Day): (c: Choice)
    ensures c == FirstMonth <==> m.isFirstMonth && today == m.dueDate - 7
    ensures c == Monthly <==> !m.isFirstMonth && m.monthlyDueDate == Some(today)
    ensures c == Annual <==>
      !m.isFirstMonth && m.monthlyDueDate != Some(today) && today == m.dueDate - 7
    ensures c == Quiet <==>
      today != m.dueDate - 7 && (m.isFirstMonth || m.monthlyDueDate != Some(today))
  {
    if m.isFirstMonth && today == ReminderDate(m) then FirstMonth
    else if !m.isFirstMonth && m.monthlyDueDate.Some? && today == m.monthlyDueDate.value then Monthly
    else if !m.isFirstMonth && today == ReminderDate(m) then Annual
    else Quiet
  }

  /** A first-month membership is never sent the monthly or the annual
      reminder, whatever its dates. */
  lemma FirstMonthOnlyGetsFirstMonthReminder(m: Membership, today: Day)
    requires m.isFirstMonth
    ensures ChooseReminder(m, today) in {FirstMonth, Quiet}
  {
  }

  /** The addressee of a reminder, taken from the membership's member. */
  datatype Recipient = Recipient(email: string, firstName: string, lastName: string)

  /** An outgoing reminder: its kind and the payload the scheduler hands to
      the notification service. */
  datatype Reminder =
    | FirstMonthReminder(dueAmount: int, to: Recipient, invoice: Invoice, membershipType: MembershipType)
    | MonthlyReminder(dueDate: Day, monthlyAmount: Option<int>, to: Recipient, invoice: Invoice,
                      membershipType: MembershipType)
    | AnnualReminder(dueDate: Day, totalAmount: int, to: Recipient, invoice: Invoice,
                     membershipType: MembershipType)

  /** Why a membership's processing threw: invoicing it failed, or a reminder
      was due but the membership has no member to read the contact fields of. */
  datatype Fault = InvoiceFailed(error: Error) | NoMemberLoaded

  /** What happened to one membership in a pass: nothing was due, a reminder
      was sent, or its processing threw. Nothing in the pass catches such a
      throw; the model records it and carries on with the next membership. */
  datatype Notice = Silent | Sent(reminder: Reminder) | Unhandled(fault: Fault)

  function RecipientOf(member: Member): Recipient {
    Recipient(member.email, member.firstName, member.lastName)
  }

  /** The reminder decision for the snapshot record `m`, once `invoice` has
      been issued for it. Building a payload reads the member's contact
      fields, which fails when the membership has no member. */
  function Decide(m: Membership, owner: Option<Member>, invoice: Invoice, today: Day): Notice {
    var choice := ChooseReminder(m, today);
    if choice == Quiet then Silent
    else if owner.None? then Unhandled(NoMemberLoaded)
    else
      var to := RecipientOf(owner.value);
      match choice
      case FirstMonth => Sent(FirstMonthReminder(invoice.amount, to, invoice, m.membershipType))
      case Monthly =>
        Sent(MonthlyReminder(m.monthlyDueDate.value, m.monthlyAmount, to, invoice, m.membershipType))
      case Annual => Sent(AnnualReminder(m.dueDate, invoice.amount, to, invoice, m.membershipType))
  }

  /** The result of processing one membership. */
  datatype Step = Step(store: Store, invoice: Option<Invoice>, notice: Notice)

  /** Processes the snapshot record `m` against the current store: invoices it
      first, then sends the reminder chosen from the snapshot's (pre-invoice)
      view of the membership. A failed invoice ends this membership's
      processing without a reminder. */
  function ReconcileOne(s: Store, m: Membership, owner: Option<Member>, today: Day): (r: Step)
    ensures m.id !in s.memberships ==> r == Step(s, None, Unhandled(InvoiceFailed(NotFound)))
    ensures m.id in s.memberships ==>
      var current := s.memberships[m.id];
      var issued := Invoice(InvoiceAmount(current), today, m.id);
      && r.invoice == Some(issued)
      && r.store.invoices == s.invoices + [issued]
      && r.store.memberships == s.memberships[m.id := AfterInvoice(current)]
      && r.store.members == s.members && r.store.nextId == s.nextId
    ensures m.id in s.memberships ==>
      && (r.notice.Silent? <==> ChooseReminder(m, today) == Quiet)
      && (r.notice.Unhandled? <==> ChooseReminder(m, today) != Quiet && owner.None?)
      && (r.notice.Unhandled? ==> r.notice.fault == NoMemberLoaded)
      && (r.notice.Sent? ==>
            && owner.Some?
            && r.notice.reminder.to == Recipient(owner.value.email, owner.value.firstName, owner.value.lastName)
            && Some(r.notice.reminder.invoice) == r.invoice
            && r.notice.reminder.membershipType == m.membershipType
            && (r.notice.reminder.FirstMonthReminder? <==> ChooseReminder(m, today) == FirstMonth)
            && (r.notice.reminder.MonthlyReminder? <==> ChooseReminder(m, today) == Monthly)
            && (r.notice.reminder.AnnualReminder? <==> ChooseReminder(m, today) == Annual))
  {
    match GenerateInvoice(s, m.id, today)
    case Err(e) => Step(s, None, Unhandled(InvoiceFailed(e)))
    case Ok(s', invoice) => Step(s', Some(invoice), Decide(m, owner, invoice, today))
  }

  /** Scenario: a first-month membership on its reminder day gets the
      first-month reminder for the amount just invoiced. */
  lemma FirstMonthReminderScenario(s: Store, m: Membership, member: Member, today: Day)
    requires m.id in s.memberships
    requires m.isFirstMonth && today == m.dueDate - 7
    ensures var r := ReconcileOne(s, m, Some(member), today);
      && r.invoice.Some?
      && r.notice == Sent(FirstMonthReminder(r.invoice.value.amount, RecipientOf(member),
                                             r.invoice.value, m.membershipType))
  {
  }

  /** Scenario: out of its first month, a membership whose monthly due date is
      today gets the monthly reminder, even when today is also its annual
      reminder day. */
  lemma MonthlyReminderScenario(s: Store, m: Membership, member: Member, today: Day)
    requires m.id in s.memberships
    requires !m.isFirstMonth && m.monthlyDueDate == Some(today)
    ensures var r := ReconcileOne(s, m, Some(member), today);
      && r.invoice.Some?
      && r.notice == Sent(MonthlyReminder(today, m.monthlyAmount, RecipientOf(member),
                                          r.invoice.value, m.membershipType))
  {
  }

  /** Scenario: out of its first month and not on a monthly due date, a
      membership on its reminder day gets the annual reminder for the amount
      just invoiced. */
  lemma AnnualReminderScenario(s: Store, m: Membership, member: Member, today: Day)
    requires m.id in s.memberships
    requires !m.isFirstMonth && m.monthlyDueDate != Some(today) && today == m.dueDate - 7
    ensures var r := ReconcileOne(s, m, Some(member), today);
      && r.invoice.Some?
      && r.notice == Sent(AnnualReminder(m.dueDate, r.invoice.value.amount, RecipientOf(member),
                                         r.invoice.value, m.membershipType))
  {
  }

  /** Scenario: an annual membership thirty days before its due date is
      invoiced but gets no reminder. */
  lemma NoReminderScenario(s: Store, m: Membership, owner: Option<Member>, today: Day)
    requires m.id in s.memberships && s.memberships[m.id] == m
    requires !m.isFirstMonth && m.monthlyAmount.None? && m.monthlyDueDate.None?
    requires m.dueDate == today + 30
    ensures var r := ReconcileOne(s, m, owner, today);
      && r.notice == Silent
      && r.store.invoices == s.invoices + [Invoice(m.totalAmount, today, m.id)]
  {
  }

  /** The reminder is chosen from the flag read before invoicing: a
      first-month membership with a monthly amount, on its reminder day, is
      billed the blended amount, its stored flag is cleared, and it still gets
      the first-month reminder for the blended amount. */
  lemma StaleFlagStillSendsFirstMonthReminder(s: Store, m: Membership, member: Member, today: Day)
    requires m.id in s.memberships && s.memberships[m.id] == m
    requires m.isFirstMonth && HasMonthlyAmount(m) && today == m.dueDate - 7
    ensures var r := ReconcileOne(s, m, Some(member), today);
      var blended := Invoice(m.totalAmount + m.monthlyAmount.value, today, m.id);
      && !r.store.memberships[m.id].isFirstMonth
      && r.notice == Sent(FirstMonthReminder(m.totalAmount + m.monthlyAmount.value,
                                             RecipientOf(member), blended, m.membershipType))
  {
  }

  /** `snapshot` lists the memberships of `mm`, each exactly once. */
  predicate Enumerates(snapshot: seq<Membership>, mm: map<Id, Membership>) {
    && (forall i :: 0 <= i < |snapshot| ==> snapshot[i].id in mm && mm[snapshot[i].id] == snapshot[i])
    && (forall i, j :: 0 <= i < j < |snapshot| ==> snapshot[i].id != snapshot[j].id)
    && (forall k :: k in mm ==> exists i :: 0 <= i < |snapshot| && snapshot[i].id == k)
  }

  /** The snapshot records other than the `i`-th have ids other than its id. */
  lemma DistinctIds(snapshot: seq<Membership>, mm: map<Id, Membership>, i: int)
    requires Enumerates(snapshot, mm) && 0 <= i < |snapshot|
    ensures forall j :: 0 <= j < |snapshot| && j != i ==> snapshot[j].id != snapshot[i].id
  {
  }

  /** Loads every membership of the store, in no particular order. */
  method FindAll(mm: map<Id, Membership>) returns (snapshot: seq<Membership>)
    requires forall k :: k in mm ==> mm[k].id == k
    ensures Enumerates(snapshot, mm)
  {
    snapshot := [];
    var rest := mm.Keys;
    while rest != {}
      invariant rest <= mm.Keys
      invariant forall i :: 0 <= i < |snapshot| ==>
        snapshot[i].id in mm && mm[snapshot[i].id] == snapshot[i] && snapshot[i].id !in rest
      invariant forall i, j :: 0 <= i < j < |snapshot| ==> snapshot[i].id != snapshot[j].id
      invariant forall k :: k in mm && k !in rest ==> exists i :: 0 <= i < |snapshot| && snapshot[i].id == k
      decreases rest
    {
      var k :| k in rest;
      ghost var before := snapshot;
      snapshot := snapshot + [mm[k]];
      rest := rest - {k};
      forall k' | k' in mm && k' !in rest
        ensures exists i :: 0 <= i < |snapshot| && snapshot[i].id == k'
      {
        if k' == k {
          assert snapshot[|before|].id == k';
        } else {
          var i :| 0 <= i < |before| && before[i].id == k';
          assert snapshot[i] == before[i];
        }
      }
    }
  }

  /** Invoices issued one per snapshot record name every membership of `mm`
      exactly once. */
  lemma InvoicedOnceEach(snapshot: seq<Membership>, mm: map<Id, Membership>, issued: seq<Invoice>)
    requires Enumerates(snapshot, mm) && |issued| == |snapshot|
    requires forall i :: 0 <= i < |snapshot| ==> issued[i].membershipId == snapshot[i].id
    ensures forall k :: k in mm ==> exists i :: 0 <= i < |issued| && issued[i].membershipId == k
    ensures forall i, j :: 0 <= i < j < |issued| ==> issued[i].membershipId != issued[j].membershipId
  {
  }

  /** The state of a pass after the first `i` snapshot records have been
      processed into store `cur`, invoices `issued` and decisions `notices`. */
  ghost predicate PassState(s: Store, today: Day, snapshot: seq<Membership>, i: int,
                            cur: Store, issued: seq<Invoice>, notices: seq<Notice>)
  {
    && Enumerates(snapshot, s.memberships)
    && 0 <= i <= |snapshot|
    && |issued| == i && |notices| == i
    && cur.members == s.members && cur.nextId == s.nextId
    && cur.invoices == s.invoices + issued
    && cur.memberships.Keys == s.memberships.Keys
    && (forall j :: 0 <= j < i ==> issued[j] == Invoice(InvoiceAmount(snapshot[j]), today, snapshot[j].id))
    && (forall j :: 0 <= j < i ==>
          notices[j] == Decide(snapshot[j], OwnerOf(s.members, snapshot[j]), issued[j], today))
    && (forall j :: 0 <= j < i ==> cur.memberships[snapshot[j].id] == AfterInvoice(snapshot[j]))
    && (forall j :: i <= j < |snapshot| ==> cur.memberships[snapshot[j].id] == snapshot[j])
  }

  /** Processing the next snapshot record extends the pass state by one. */
  lemma PassStep(s: Store, today: Day, snapshot: seq<Membership>, i: int,
                 cur: Store, issued: seq<Invoice>, notices: seq<Notice>)
    requires PassState(s, today, snapshot, i, cur, issued, notices) && i < |snapshot|
    ensures var step := ReconcileOne(cur, snapshot[i], OwnerOf(s.members, snapshot[i]), today);
      && step.invoice.Some?
      && PassState(s, today, snapshot, i + 1, step.store,
                   issued + [step.invoice.value], notices + [step.notice])
  {
    var m := snapshot[i];
    assert m.id in cur.memberships && cur.memberships[m.id] == m;
    var step := ReconcileOne(cur, m, OwnerOf(s.members, m), today);
    var inv := Invoice(InvoiceAmount(m), today, m.id);
    assert step.invoice == Some(inv);
    var mm' := cur.memberships[m.id := AfterInvoice(m)];
    assert step.store.memberships == mm';
    var issued' := issued + [inv];
    var notices' := notices + [step.notice];
    assert step.store.invoices == s.invoices + issued';
    DistinctIds(snapshot, s.memberships, i);
    forall j | 0 <= j < i + 1
      ensures issued'[j] == Invoice(InvoiceAmount(snapshot[j]), today, snapshot[j].id)
      ensures notices'[j] == Decide(snapshot[j], OwnerOf(s.members, snapshot[j]), issued'[j], today)
      ensures mm'[snapshot[j].id] == AfterInvoice(snapshot[j])
    {
      if j < i {
        assert issued'[j] == issued[j] && notices'[j] == notices[j];
      }
    }
    forall j | i + 1 <= j < |snapshot|
      ensures mm'[snapshot[j].id] == snapshot[j]
    {
      assert snapshot[j].id != m.id;
    }
  }

  /** A pass that has processed the whole snapshot leaves every membership as
      invoicing leaves it, and keeps the store well-formed. */
  lemma PassDone(s: Store, today: Day, snapshot: seq<Membership>,
                 cur: Store, issued: seq<Invoice>, notices: seq<Notice>)
    requires Valid(s)
    requires PassState(s, today, snapshot, |snapshot|, cur, issued, notices)
    ensures forall k :: k in s.memberships ==> cur.memberships[k] == AfterInvoice(s.memberships[k])
    ensures forall k :: k in s.memberships ==> exists i :: 0 <= i < |issued| && issued[i].membershipId == k
    ensures forall i, j :: 0 <= i < j < |issued| ==> issued[i].membershipId != issued[j].membershipId
    ensures forall k :: k in cur.memberships && cur.memberships[k].isFirstMonth ==> s.memberships[k].isFirstMonth
    ensures Valid(cur)
  {
    InvoicedOnceEach(snapshot, s.memberships, issued);
  }

  /** One reconciliation pass on `today`. Every membership of the snapshot is
      invoiced exactly once, in snapshot order, whether or not a reminder
      goes out; each reminder decision uses the snapshot record; afterwards
      every membership is as invoicing leaves it, and nothing else changes. */
  method HandleCron(s: Store, today: Day)
    returns (s': Store, snapshot: seq<Membership>, issued: seq<Invoice>, notices: seq<Notice>)
    requires Valid(s)
    ensures Enumerates(snapshot, s.memberships)
    ensures |issued| == |snapshot| && |notices| == |snapshot|
    ensures s'.invoices == s.invoices + issued
    ensures forall i :: 0 <= i < |snapshot| ==>
      issued[i] == Invoice(InvoiceAmount(snapshot[i]), today, snapshot[i].id)
    ensures forall i :: 0 <= i < |snapshot| ==>
      notices[i] == Decide(snapshot[i], OwnerOf(s.members, snapshot[i]), issued[i], today)
    ensures s'.memberships.Keys == s.memberships.Keys
    ensures forall k :: k in s.memberships ==> s'.memberships[k] == AfterInvoice(s.memberships[k])
    ensures forall k :: k in s.memberships ==> exists i :: 0 <= i < |issued| && issued[i].membershipId == k
    ensures forall i, j :: 0 <= i < j < |issued| ==> issued[i].membershipId != issued[j].membershipId
    ensures forall k :: k in s'.memberships && s'.memberships[k].isFirstMonth ==> s.memberships[k].isFirstMonth
    ensures s'.members == s.members && s'.nextId == s.nextId
    ensures Valid(s')
  {
    snapshot := FindAll(s.memberships);
    s' := s;
    issued := [];
    notices := [];
    var i := 0;
    while i < |snapshot|
      invariant PassState(s, today, snapshot, i, s', issued, notices)
      invariant i <= |snapshot|
    {
      PassStep(s, today, snapshot, i, s', issued, notices);
      var step := ReconcileOne(s', snapshot[i], OwnerOf(s.members, snapshot[i]), today);
      s' := step.store;
      issued := issued + [step.invoice.value];
      notices := notices + [step.notice];
      i := i + 1;
    }
    PassDone(s, today, snapshot, s', issued, notices);
  }
}
