# Membership billing core, modelled in Dafny

This project models the decision logic of a small membership billing service.
Members register and get an annual membership. A membership can be switched
to monthly billing. A periodic reconciliation pass invoices every membership
and then sends at most one reminder for it: a first-month reminder, a monthly
reminder or an annual reminder.

The model is functional. The store is a value `Store` with three parts:
members and memberships keyed by id, and an append-only invoice ledger. Every
service operation is a pure function from a store to a `Result`, which holds
either the new store and the operation's value, or an error. The
reconciliation pass is a method that loops over a snapshot of the
memberships.

- `schema.dfy` (`Schema`): the records. `Member`, `Membership`, `Invoice` and
  `MembershipType` (exactly two values). Nullable columns are `Option`. A
  `MembershipDraft` is what the service hands to the repository when it
  creates a membership, and `Materialize` fills unset columns with their
  defaults: `AnnualBasic` and `isFirstMonth = true`. Dates are day numbers,
  because every comparison the core makes is day-granular. Two predicates
  capture the two different "has a monthly amount" tests in the code.
  `HasMonthlyAmount` is JavaScript truthiness: set and non-zero.
  `MonthlyAmountSet` is the SQL filter `IS NOT NULL`.
- `repository.dfy` (`Repository`): the `Store`, the errors (`NotFound`,
  `BadRequest`, `Internal`) and the `Valid` predicate. `Valid` says each
  record sits under its own id, ids come from the store's generator, owner
  references point at stored members, and emails are unique. The member
  table has no unique constraint on `email`
  (src/schemas/member.schema.ts:22-23). Emails stay unique only because
  `register` looks the email up before saving, and only while registrations
  do not run concurrently. The uuid generator is modelled as a counter
  `nextId`.
- `app_service.dfy` (`AppService`): `Register`, `CreateMonthlyMembership` and
  `GenerateInvoice`, with the amount priority (`InvoiceAmount`) and the
  one-time first-month flip (`AfterInvoice`).
- `scheduler.dfy` (`Scheduler`): the reminder choice (`ChooseReminder`), the
  reminder payloads, the per-membership step (`ReconcileOne`: invoice first,
  then decide) and the whole pass (`HandleCron`).

The reminder decision reads the membership as loaded at the start of the
pass. Invoice generation re-reads the membership from the store. So a
first-month membership on its reminder day is charged the blended amount,
has its stored flag cleared, and still receives the first-month reminder.
`ReconcileOne` and `StaleFlagStillSendsFirstMonthReminder` state this.

Edge cases of the code that the model keeps:

- A duplicate email is refused with BadRequest (src/app.service.ts:26-27).
- `register` creates the membership with `isFirstMonth = false`
  (src/app.service.ts:41). The column default `true` does not apply to it.
- A switch to monthly billing fails with `Internal` when the membership has
  no loadable member. The code reads the member's id
  (src/app.service.ts:69), which throws a TypeError, and the catch block
  wraps it (src/app.service.ts:92).
- In the pass, building a reminder payload reads the member's contact
  fields (src/scheduler.ts:42). For a membership without a member this
  throws after the invoice has been created. A failed invoice throws the
  same way. The throw happens inside the per-membership callback of the
  `forEach` (src/scheduler.ts:29), where nothing catches, wraps or logs it.
  The model records it as an `Unhandled` notice for that membership and
  goes on with the next one; see "Left out".

## Model

| member | source | states |
|---|---|---|
| Schema.MaterializeDraftOf | src/schemas/membership.schema.ts:20-54 | Saving a membership whose every column is given stores exactly those columns, under the given id. |
| Schema.BareDraftDefaults | src/schemas/membership.schema.ts:24-47 | A membership created with only start date, due date and total amount is `ANNUAL_BASIC`, has `isFirstMonth = true`, and has no monthly due date, monthly amount or owner. |
| AppService.Register | src/app.service.ts:21-52 | Refuses with BadRequest exactly when some member already has the email, and then creates nothing. Otherwise it adds one fresh member with the given names and email. It also adds one fresh membership owned by that member: `ANNUAL_BASIC`, total 500, not first month, starting today, due one year later, no monthly fields. The ledger is untouched and the store stays well-formed. |
| AppService.MonthlyCountZero | src/app.service.ts:67-73 | The count of a member's memberships with a non-null monthly amount is zero exactly when none of that member's memberships has one. |
| AppService.FirstMonthOnSwitch | src/app.service.ts:66-73 | The first-month flag a switch computes is true exactly when no membership of the same member has a monthly amount. |
| AppService.CreateMonthlyMembership | src/app.service.ts:54-95 | An unknown id gives NotFound. A membership without a loadable member gives Internal. Otherwise exactly that membership is updated and one row is reported: monthly amount 300, type `MONTHLY_PREMIUM`, monthly due date one month after its start date, and first-month flag true iff no membership of its member had a monthly amount before. Every other column and every other record is unchanged. |
| AppService.SwitchAgainIsNotFirstMonth | src/app.service.ts:67-85 | Switching a membership that already has a monthly amount never leaves it in its first month. |
| AppService.SecondSwitchIsNotFirstMonth | src/app.service.ts:67-85 | Switching the same membership twice succeeds, and leaves it out of its first month with monthly amount 300. |
| AppService.CreateMonthlyMembershipValid | src/app.service.ts:74-86 | A successful switch keeps the store well-formed. |
| AppService.GenerateInvoice | src/app.service.ts:97-133 | An unknown id gives NotFound and issues no invoice. Otherwise exactly one invoice dated today for that id is appended and earlier invoices are kept. In the first month with a truthy monthly amount, the amount is total plus monthly, and only that membership's flag is cleared. Out of the first month with a truthy monthly amount, the amount is the monthly amount and no membership is written. Without one, the amount is the total and no membership is written. No flag is ever raised, and the store stays well-formed. |
| AppService.GenerateInvoiceTwice | src/app.service.ts:106-125 | Invoicing a first-month membership twice bills total plus monthly, then the monthly amount alone. Afterwards only that membership's flag has changed, and the ledger has grown by exactly the two invoices. |
| AppService.MembershipLifecycle | src/app.service.ts:29-117 | Chained on one store: a newly registered membership is invoiced 500. It is then switched to monthly billing and is in its first month. Its next two invoices are 800 and then 300. The ledger grows by exactly those three invoices. |
| AppService.SettledStaysSettled | src/app.service.ts:67-117 | A membership that has a monthly amount and is out of its first month stays so under any invoice and any switch: the first month never comes back. |
| Scheduler.ChooseReminder | src/scheduler.ts:31-81 | Exactly one of four outcomes holds, each given by an iff. First-month: first month and today is due date minus 7. Monthly: not first month and the monthly due date is today. Annual: not first month, monthly due date not today, and today is due date minus 7. Otherwise none. |
| Scheduler.FirstMonthOnlyGetsFirstMonthReminder | src/scheduler.ts:39-81 | A first-month membership never gets the monthly or the annual reminder, whatever its dates. |
| Scheduler.ReconcileOne | src/scheduler.ts:29-81 | The membership is invoiced first, and the store changes exactly as invoicing changes it. The reminder is chosen from the snapshot record, not the re-read one. No reminder is sent exactly when none is due. A due reminder whose membership has no member ends in an `Unhandled` notice, as the payload read throws. A sent reminder has the chosen kind and is addressed to the member's email and names. It carries the invoice just issued and the membership's type. A membership missing from the store ends in an `Unhandled` notice for the NotFound that invoicing throws, and the store is unchanged. |
| Scheduler.FirstMonthReminderScenario | src/scheduler.ts:39-48 | A first-month membership on its reminder day gets the first-month reminder. Its due amount is the amount just invoiced. |
| Scheduler.MonthlyReminderScenario | src/scheduler.ts:51-65 | Out of the first month, a membership due monthly today gets the monthly reminder with its monthly amount and monthly due date. This holds even when today is also its annual reminder day. |
| Scheduler.AnnualReminderScenario | src/scheduler.ts:68-81 | Out of the first month and not monthly-due today, a membership on its reminder day gets the annual reminder. It carries the annual due date and the amount just invoiced. |
| Scheduler.NoReminderScenario | src/scheduler.ts:34-81 | An annual membership due in 30 days gets no reminder, but it is still invoiced its total amount. |
| Scheduler.StaleFlagStillSendsFirstMonthReminder | src/scheduler.ts:25-48 | A first-month membership with a monthly amount, on its reminder day, is billed the blended amount and its stored flag is cleared. It still gets the first-month reminder for that amount, because the decision reads the flag loaded before invoicing. |
| Scheduler.FindAll | src/scheduler.ts:25-27 | The loaded snapshot lists every stored membership exactly once, each as stored. |
| Scheduler.InvoicedOnceEach | src/scheduler.ts:29-36 | One invoice per snapshot record means every membership is named by exactly one new invoice. |
| Scheduler.HandleCron | src/scheduler.ts:22-81 | The pass invoices every membership of the snapshot exactly once, in snapshot order, whether or not a reminder is sent. Each decision is the one chosen from the snapshot record and the invoice just issued. Afterwards every membership is as invoicing leaves it, and no first-month flag is raised. Members are untouched, invoices are only appended, and the store stays well-formed. |

## Left out

- Email delivery (`src/email.service.ts`) is not part of this model: the template keys, the invoice summary text, the null-payload check and the provider call. A reminder is an abstract event holding its kind and the payload fields the scheduler passes.
- ReconcileOne: in the code, a throw inside the per-membership callback (a failed invoice, or the missing-member payload read) is an unhandled promise rejection. It is neither wrapped nor logged, and what it does to the process is not modelled. The model records it as an `Unhandled` notice and continues with the next membership. HandleCron inherits this.
- Concurrency and timing: the fire-and-forget `forEach(async …)` is modelled as a sequential loop, and the 30-second cron trigger is not modelled. The wall clock is the `today` parameter, and the snapshot order is arbitrary.
- The commented-out alternative at the end of `src/scheduler.ts` is dead code and is not modelled.
- Persistence: repositories, decorators, module wiring, the HTTP controller, DTO validation and the `createdAt`/`updatedAt` timestamps. Store read or write failures, and their wrapping as InternalServerError, are left out. The only `Internal` errors modelled are the missing-member reads.
- Register: "one year later" is the parameter `oneYearLater`. The JavaScript `Date` day-overflow normalisation and time zones are not re-derived.
- CreateMonthlyMembership: "one month later" is the parameter `oneMonthLater`, for the same reason.
- Amounts are integers. `Number()` coercion of decimal columns is not modelled, and neither is the driver returning decimals as strings, where `"0"` would be truthy. `HasMonthlyAmount` follows the declared numeric type.
- Record ids come from a counter in the store instead of random uuids.
- The race between two concurrent switches for the same member, and the non-atomic flag-then-invoice write, are concurrency or failure concerns. They are not modelled.
