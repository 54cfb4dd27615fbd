/** Records of the billing service: members, their memberships and the
    invoices issued against a membership. Dates are day numbers, because every
    comparison the billing core makes is day-granular. */
module Schema {

  /** A nullable column or an optional argument. */
  datatype Option<+T> = None | Some(value: T) {
    function GetOr(default: T): T {
      match this
      case Some(v) => v
      case None => default
    }
  }

  /** A calendar day, counted from an arbitrary epoch. */
  type Day = int

  /** A primary key. */
  type Id = nat

  datatype MembershipType = AnnualBasic | MonthlyPremium

  datatype Member = Member(id: Id, firstName: string, lastName: string, email: string)

  /** A stored membership. `startDate`, `dueDate` and `totalAmount` are never
      null; `monthlyDueDate`, `monthlyAmount` and the owning `memberId` are. */
  datatype Membership = Membership(
    id: Id,
    membershipType: MembershipType,
    startDate: Day,
    dueDate: Day,
    monthlyDueDate: Option<Day>,
    isFirstMonth: bool,
    monthlyAmount: Option<int>,
    totalAmount: int,
    memberId: Option<Id>)

  datatype Invoice = Invoice(amount: int, issueDate: Day, membershipId: Id)

  /** The fields handed to the repository when a membership is created: the
      columns that have a default or are nullable may be left unset. */
  datatype MembershipDraft = MembershipDraft(
    membershipType: Option<MembershipType>,
    startDate: Day,
    dueDate: Day,
    monthlyDueDate: Option<Day>,
    isFirstMonth: Option<bool>,
    monthlyAmount: Option<int>,
    totalAmount: int,
    memberId: Option<Id>)

  const DefaultMembershipType: MembershipType := AnnualBasic
  const DefaultIsFirstMonth: bool := true

  /** The row the store holds once a draft is saved under `id`: unset columns
      take their declared defaults. */
  function Materialize(id: Id, d: MembershipDraft): Membership {
    Membership(
      id,
      d.membershipType.GetOr(DefaultMembershipType),
      d.startDate,
      d.dueDate,
      d.monthlyDueDate,
      d.isFirstMonth.GetOr(DefaultIsFirstMonth),
      d.monthlyAmount,
      d.totalAmount,
      d.memberId)
  }

  /** The draft that sets every column of `m` explicitly. */
  function DraftOf(m: Membership): MembershipDraft {
    MembershipDraft(
      Some(m.membershipType), m.startDate, m.dueDate, m.monthlyDueDate,
      Some(m.isFirstMonth), m.monthlyAmount, m.totalAmount, m.memberId)
  }

  /** A draft that gives only the never-null columns. */
  function BareDraft(startDate: Day, dueDate: Day, totalAmount: int): MembershipDraft {
    MembershipDraft(None, startDate, dueDate, None, None, None, totalAmount, None)
  }

  /** Saving a draft that sets every column stores exactly those columns. */
  lemma MaterializeDraftOf(m: Membership)
    ensures Materialize(m.id, DraftOf(m)) == m
  {
  }

  /** A membership created with only its required columns is an annual one
      still in its first month, with no monthly billing and no owner. */
  lemma BareDraftDefaults(id: Id, startDate: Day, dueDate: Day, totalAmount: int)
    ensures var m := Materialize(id, BareDraft(startDate, dueDate, totalAmount));
      && m.membershipType == AnnualBasic
      && m.isFirstMonth
      && m.monthlyAmount.None? && m.monthlyDueDate.None?
      && m.memberId.None?
      && m.startDate == startDate && m.dueDate == dueDate && m.totalAmount == totalAmount
  {
  }

  /** JavaScript truthiness of the nullable `monthlyAmount`: set and non-zero.
      This is the test invoice generation applies. */
  predicate HasMonthlyAmount(m: Membership) {
    m.monthlyAmount.Some? && m.monthlyAmount.value != 0
  }

  /** The SQL filter `monthlyAmount IS NOT NULL`, used when counting a
      member's monthly memberships. */
  predicate MonthlyAmountSet(m: Membership) {
    m.monthlyAmount.Some?
  }
}
