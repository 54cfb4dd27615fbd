/** The service operations of the billing core: registering a member with an
    annual membership, switching a membership to monthly billing, and issuing
    an invoice for a membership. */
module AppService {
  import opened Schema
  import opened Repository

  /** The annual fee a new membership is created with. */
  const AnnualFee: int := 500
  /** The monthly fee a membership switched to monthly billing is charged. */
  const MonthlyFee: int := 300

  datatype MemberDto = MemberDto(firstName: string, lastName: string, email: string)

  // ---------------------------------------------------------------------------
  // register

  function EmailTaken(members: map<Id, Member>, email: string): bool {
    exists k :: k in members && members[k].email == email
  }

  /** Registers a member and gives them an annual membership that starts
      `today` and falls due one year later. A duplicate email is refused with
      BadRequest and nothing is created. */
  function Register(s: Store, dto: MemberDto, today: Day, oneYearLater: Day -> Day): (r: Result<Member>)
    requires Valid(s)
    ensures r.Err? <==> exists k :: k in s.members && s.members[k].email == dto.email
    ensures r.Err? ==> r.error == BadRequest
    ensures r.Ok? ==>
      && r.value.id !in s.members
      && r.value.firstName == dto.firstName && r.value.lastName == dto.lastName
      && r.value.email == dto.email
      && r.store.members == s.members[r.value.id := r.value]
      && r.store.invoices == s.invoices
      && Valid(r.store)
    ensures r.Ok? ==>
      exists k :: k !in s.memberships
        && r.store.memberships.Keys == s.memberships.Keys + {k}
        && (forall j :: j in s.memberships ==> r.store.memberships[j] == s.memberships[j])
        && var m := r.store.memberships[k];
          && m.memberId == Some(r.value.id)
          && m.membershipType == AnnualBasic
          && m.totalAmount == 500
          && !m.isFirstMonth
          && m.startDate == today
          && m.dueDate == oneYearLater(today)
          && m.monthlyAmount.None? && m.monthlyDueDate.None?
  {
    if EmailTaken(s.members, dto.email) then
      Err(BadRequest)
    else
      var member := Member(s.nextId, dto.firstName, dto.lastName, dto.email);
      var draft := MembershipDraft(
        None, today, oneYearLater(today), None, Some(false), None, AnnualFee, Some(member.id));
      var membershipId := s.nextId + 1;
      var s' := Store(
        s.members[member.id := member],
        s.memberships[membershipId := Materialize(membershipId, draft)],
        s.invoices,
        s.nextId + 2);
      assert membershipId !in s.memberships;
      Ok(s', member)
  }

  // ---------------------------------------------------------------------------
  // createMonthlyMembership

  /** How many memberships of member `owner` have a monthly amount set. */
  function MonthlyCount(mm: map<Id, Membership>, owner: Id): nat {
    |set k | k in mm && mm[k].memberId == Some(owner) && MonthlyAmountSet(mm[k])|
  }

  /** A member has no monthly membership yet exactly when the count is zero. */
  lemma MonthlyCountZero(mm: map<Id, Membership>, owner: Id)
    ensures MonthlyCount(mm, owner) == 0 <==>
      forall k :: k in mm && mm[k].memberId == Some(owner) ==> mm[k].monthlyAmount.None?
  {
    var ks := set k | k in mm && mm[k].memberId == Some(owner) && MonthlyAmountSet(mm[k]);
    if MonthlyCount(mm, owner) == 0 {
      assert ks == {};
      forall k | k in mm && mm[k].memberId == Some(owner)
        ensures mm[k].monthlyAmount.None?
      {
        assert k !in ks;
      }
    } else {
      var k :| k in ks;
    }
  }

  /** The first-month flag a switch to monthly billing sets for a membership
      owned by `owner`: true exactly when the member has no monthly membership. */
  function FirstMonthOnSwitch(mm: map<Id, Membership>, owner: Id): (first: bool)
    ensures first <==> forall k :: k in mm && mm[k].memberId == Some(owner) ==> mm[k].monthlyAmount.None?
  {
    MonthlyCountZero(mm, owner);
    MonthlyCount(mm, owner) == 0
  }

  /** Switches membership `id` to monthly billing and returns the number of
      rows updated. An unknown id is NotFound; a membership whose owner cannot
      be loaded fails while reading the owner's id, which surfaces as Internal. */
  function CreateMonthlyMembership(s: Store, id: Id, oneMonthLater: Day -> Day): (r: Result<nat>)
    ensures id !in s.memberships ==> r == Err(NotFound)
    ensures id in s.memberships && OwnerOf(s.members, s.memberships[id]).None? ==> r == Err(Internal)
    ensures r.Ok? <==> id in s.memberships && OwnerOf(s.members, s.memberships[id]).Some?
    ensures r.Ok? ==> id in s.memberships && id in r.store.memberships
    ensures r.Ok? ==>
      var m := s.memberships[id];
      var m' := r.store.memberships[id];
      && r.value == 1
      && r.store.memberships == s.memberships[id := m']
      && r.store.members == s.members && r.store.invoices == s.invoices
      && r.store.nextId == s.nextId
      && m'.monthlyAmount == Some(300)
      && m'.membershipType == MonthlyPremium
      && m'.monthlyDueDate == Some(oneMonthLater(m.startDate))
      && (m'.isFirstMonth <==>
            forall k :: k in s.memberships && s.memberships[k].memberId == m.memberId ==>
              s.memberships[k].monthlyAmount.None?)
      && m'.id == m.id && m'.startDate == m.startDate && m'.dueDate == m.dueDate
      && m'.totalAmount == m.totalAmount && m'.memberId == m.memberId
  {
    if id !in s.memberships then
      Err(NotFound)
    else
      var m := s.memberships[id];
      if OwnerOf(s.members, m).None? then
        Err(Internal)
      else
        var first := FirstMonthOnSwitch(s.memberships, m.memberId.value);
        var m' := m.(
          monthlyAmount := Some(MonthlyFee),
          monthlyDueDate := Some(oneMonthLater(m.startDate)),
          isFirstMonth := first,
          membershipType := MonthlyPremium);
        Ok(s.(memberships := s.memberships[id := m']), 1)
  }

  /** A membership that already has a monthly amount is never put back into
      its first month by a further switch; in particular, switching the same
      membership twice leaves it out of its first month. */
  lemma SwitchAgainIsNotFirstMonth(s: Store, id: Id, oneMonthLater: Day -> Day)
    requires id in s.memberships && s.memberships[id].monthlyAmount.Some?
    ensures var r := CreateMonthlyMembership(s, id, oneMonthLater);
      r.Ok? ==> !r.store.memberships[id].isFirstMonth
  {
  }

  lemma SecondSwitchIsNotFirstMonth(s: Store, id: Id, oneMonthLater: Day -> Day)
    requires CreateMonthlyMembership(s, id, oneMonthLater).Ok?
    ensures var s1 := CreateMonthlyMembership(s, id, oneMonthLater).store;
      var r := CreateMonthlyMembership(s1, id, oneMonthLater);
      && r.Ok?
      && !r.store.memberships[id].isFirstMonth
      && r.store.memberships[id].monthlyAmount == Some(300)
  {
  }

  /** Switching preserves the well-formedness of the store. */
  lemma CreateMonthlyMembershipValid(s: Store, id: Id, oneMonthLater: Day -> Day)
    requires Valid(s)
    ensures var r := CreateMonthlyMembership(s, id, oneMonthLater);
      r.Ok? ==> Valid(r.store)
  {
  }

  // ---------------------------------------------------------------------------
  // generateInvoice

  /** The amount billed for a membership: the annual fee blended with the
      first monthly fee in the first month, then the monthly fee, and the
      annual fee for a membership without monthly billing. */
  function InvoiceAmount(m: Membership): int {
    if m.isFirstMonth && HasMonthlyAmount(m) then m.totalAmount + m.monthlyAmount.value
    else if HasMonthlyAmount(m) then m.monthlyAmount.value
    else m.totalAmount
  }

  /** The membership as stored after it is invoiced: the blended first-month
      charge is made once, so the flag is cleared when it was charged. */
  function AfterInvoice(m: Membership): Membership {
    if m.isFirstMonth && HasMonthlyAmount(m) then m.(isFirstMonth := false) else m
  }

  /** Issues an invoice dated `today` for membership `id` and appends it to
      the ledger. An unknown id is NotFound and creates no invoice. */
  function GenerateInvoice(s: Store, id: Id, today: Day): (r: Result<Invoice>)
    ensures r.Err? <==> id !in s.memberships
    ensures r.Err? ==> r.error == NotFound
    ensures r.Ok? ==>
      var m := s.memberships[id];
      && r.store.invoices == s.invoices + [r.value]
      && r.value.membershipId == id
      && r.value.issueDate == today
      && r.store.members == s.members
      && r.store.nextId == s.nextId
      && (m.isFirstMonth && HasMonthlyAmount(m) ==>
            && r.value.amount == m.totalAmount + m.monthlyAmount.value
            && r.store.memberships == s.memberships[id := m.(isFirstMonth := false)])
      && (!m.isFirstMonth && HasMonthlyAmount(m) ==>
            r.value.amount == m.monthlyAmount.value && r.store.memberships == s.memberships)
      && (!HasMonthlyAmount(m) ==>
            r.value.amount == m.totalAmount && r.store.memberships == s.memberships)
    ensures r.Ok? ==> forall k :: k in r.store.memberships && r.store.memberships[k].isFirstMonth ==>
      k in s.memberships && s.memberships[k].isFirstMonth
    ensures r.Ok? && Valid(s) ==> Valid(r.store)
  {
    if id !in s.memberships then
      Err(NotFound)
    else
      var m := s.memberships[id];
      var amount := InvoiceAmount(m);
      var memberships := if m.isFirstMonth && HasMonthlyAmount(m)
        then s.memberships[id := AfterInvoice(m)]
        else s.memberships;
      var invoice := Invoice(amount, today, id);
      Ok(s.(memberships := memberships, invoices := s.invoices + [invoice]), invoice)
  }

  /** Invoicing a first-month membership twice bills the blended amount and
      then the monthly amount alone; between the two calls only the flag of
      that membership changed, and the ledger grew by the two invoices. */
  lemma GenerateInvoiceTwice(s: Store, id: Id, day1: Day, day2: Day)
    requires id in s.memberships
    requires s.memberships[id].isFirstMonth && HasMonthlyAmount(s.memberships[id])
    ensures var m := s.memberships[id];
      var r1 := GenerateInvoice(s, id, day1);
      var r2 := GenerateInvoice(r1.store, id, day2);
      && r1.Ok? && r2.Ok?
      && r1.value.amount == m.totalAmount + m.monthlyAmount.value
      && r2.value.amount == m.monthlyAmount.value
      && r2.store.memberships == s.memberships[id := m.(isFirstMonth := false)]
      && r2.store.invoices == s.invoices + [r1.value, r2.value]
  {
  }

  /** The billing life of a new member: the annual membership registration
      creates is invoiced the annual fee; switched to monthly billing it is in
      its first month, so the next two invoices are the blended 800 and then
      the monthly 300. */
  lemma MembershipLifecycle(s: Store, dto: MemberDto, today: Day,
                            oneYearLater: Day -> Day, oneMonthLater: Day -> Day,
                            d0: Day, d1: Day, d2: Day)
    requires Valid(s) && !EmailTaken(s.members, dto.email)
    ensures var r0 := Register(s, dto, today, oneYearLater);
      var k := s.nextId + 1;
      && r0.Ok? && k in r0.store.memberships
      && var annual := GenerateInvoice(r0.store, k, d0);
      && annual.Ok? && annual.value.amount == 500
      && var r1 := CreateMonthlyMembership(annual.store, k, oneMonthLater);
      && r1.Ok? && r1.store.memberships[k].isFirstMonth
      && var r2 := GenerateInvoice(r1.store, k, d1);
      && var r3 := GenerateInvoice(r2.store, k, d2);
      && r2.Ok? && r3.Ok?
      && r2.value.amount == 800 && r3.value.amount == 300
      && r3.store.invoices == s.invoices + [annual.value, r2.value, r3.value]
  {
  }

  /** Once a membership has had its blended first-month charge it is settled:
      it has a monthly amount and is out of its first month. */
  predicate Settled(m: Membership) {
    m.monthlyAmount.Some? && !m.isFirstMonth
  }

  /** No operation returns a settled membership to its first month: invoicing
      and switching to monthly billing both keep it settled. */
  lemma SettledStaysSettled(s: Store, id: Id, k: Id, today: Day, oneMonthLater: Day -> Day)
    requires k in s.memberships && Settled(s.memberships[k])
    ensures var r := GenerateInvoice(s, id, today);
      r.Ok? ==> Settled(r.store.memberships[k])
    ensures var r := CreateMonthlyMembership(s, id, oneMonthLater);
      r.Ok? ==> Settled(r.store.memberships[k])
  {
  }
}
