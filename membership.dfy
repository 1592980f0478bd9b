/**
 * The membership rules of the membership service: buying a plan creates an
 * active, auto-renewing membership that ends the plan's number of months
 * later; an owner can cancel or renew a membership and switch its automatic
 * renewal. Dates are month indices; the clock and the pass-code generator
 * are inputs.
 */
module Memberships {
  import opened Wrappers

  datatype Plan = Plan(id: string, durationMonths: int)

  datatype Membership = Membership(
    id: string,
    userId: string,
    planId: string,
    paymentId: string,
    planDurationMonths: int,  // `membership_plans.duration_months` of the joined plan
    startMonth: int,
    endMonth: int,
    digitalPassCode: string,
    status: string,
    isActive: bool,
    autoRenewalEnabled: bool)

  /** What `createUserMembership` hands to the repository. */
  datatype NewMembership = NewMembership(
    userId: string, planId: string, paymentId: string,
    startMonth: int, endMonth: int, digitalPassCode: string,
    status: string, isActive: bool, autoRenewalEnabled: bool)

  const PLAN_NOT_FOUND := "Membership plan not found"
  const NOT_OWNED := "Membership not found or access denied"

  /**
   * `createUserMembership` in month `nowMonth` with the generated pass code:
   * an unknown plan is an error; otherwise the membership starts now, ends
   * after the plan's months, is active and renews automatically.
   */
  function CreateUserMembership(
    plans: map<string, Plan>, userId: string, planId: string, paymentId: string, nowMonth: int, passCode: string)
    : (r: Result<NewMembership, string>)
    ensures r.Failure? <==> planId !in plans
    ensures r.Failure? ==> r.error == PLAN_NOT_FOUND
    ensures r.Success? ==>
              && r.value.userId == userId && r.value.planId == planId && r.value.paymentId == paymentId
              && r.value.startMonth == nowMonth
              && r.value.endMonth - r.value.startMonth == plans[planId].durationMonths
              && r.value.digitalPassCode == passCode
              && r.value.status == "active" && r.value.isActive && r.value.autoRenewalEnabled
  {
    if planId !in plans then Failure(PLAN_NOT_FOUND)
    else
      var plan := plans[planId];
      Success(NewMembership(userId, planId, paymentId, nowMonth, nowMonth + plan.durationMonths, passCode,
                            "active", true, true))
  }

  /** The columns an update sets; `None` leaves a column as it is. */
  datatype MembershipUpdate = MembershipUpdate(
    status: Option<string>, isActive: Option<bool>, endMonth: Option<int>, autoRenewalEnabled: Option<bool>)

  /**
   * `getUserMembershipById(membershipId, userId)`: the membership, only for
   * its owner. `memberships` holds the rows not marked `is_deleted`.
   */
  function OwnedMembership(memberships: map<string, Membership>, membershipId: string, userId: string)
    : (r: Option<Membership>)
    ensures r.Some? <==> membershipId in memberships && memberships[membershipId].userId == userId
    ensures r.Some? ==> r.value == memberships[membershipId]
  {
    if membershipId in memberships && memberships[membershipId].userId == userId then Some(memberships[membershipId])
    else None
  }

  /**
   * The update `updateUserMembership` builds: `cancel` ends the membership
   * and its renewal, `renew` reactivates it and pushes its end back by its
   * plan's months, and a given `autoRenewalEnabled` has the last word.
   */
  function UpdateFor(m: Membership, action: string, autoRenewalEnabled: Option<bool>): (u: MembershipUpdate)
    ensures action == "cancel" ==> u.status == Some("cancelled") && u.isActive == Some(false) && u.endMonth.None?
    ensures action == "renew" ==>
              u.status == Some("active") && u.isActive == Some(true) && u.endMonth == Some(m.endMonth + m.planDurationMonths)
    ensures action != "cancel" && action != "renew" ==> u.status.None? && u.isActive.None? && u.endMonth.None?
    ensures autoRenewalEnabled.Some? ==> u.autoRenewalEnabled == autoRenewalEnabled
    ensures autoRenewalEnabled.None? ==> u.autoRenewalEnabled == (if action == "cancel" then Some(false) else None)
  {
    var byAction :=
      if action == "cancel" then MembershipUpdate(Some("cancelled"), Some(false), None, Some(false))
      else if action == "renew" then MembershipUpdate(Some("active"), Some(true), Some(m.endMonth + m.planDurationMonths), None)
      else MembershipUpdate(None, None, None, None);
    if autoRenewalEnabled.Some? then byAction.(autoRenewalEnabled := autoRenewalEnabled) else byAction
  }

  /** `updateUserMembership`: a membership the user does not own, or that does not exist, is an error. */
  function UpdateUserMembership(
    memberships: map<string, Membership>, userId: string, membershipId: string,
    action: string, autoRenewalEnabled: Option<bool>)
    : (r: Result<MembershipUpdate, string>)
    ensures r.Failure? <==> OwnedMembership(memberships, membershipId, userId).None?
    ensures r.Failure? ==> r.error == NOT_OWNED
    ensures r.Success? ==> r.value == UpdateFor(memberships[membershipId], action, autoRenewalEnabled)
  {
    match OwnedMembership(memberships, membershipId, userId)
    case None => Failure(NOT_OWNED)
    case Some(m) => Success(UpdateFor(m, action, autoRenewalEnabled))
  }

  /** `membershipRepository.updateUserMembership`: the given columns overwritten. */
  function Apply(m: Membership, u: MembershipUpdate): (n: Membership)
    ensures n.(status := m.status, isActive := m.isActive, endMonth := m.endMonth,
               autoRenewalEnabled := m.autoRenewalEnabled) == m
    ensures u == MembershipUpdate(None, None, None, None) ==> n == m
    ensures u.status.Some? ==> n.status == u.status.value
    ensures u.isActive.Some? ==> n.isActive == u.isActive.value
    ensures u.endMonth.Some? ==> n.endMonth == u.endMonth.value
    ensures u.autoRenewalEnabled.Some? ==> n.autoRenewalEnabled == u.autoRenewalEnabled.value
  {
    m.(status := u.status.GetOr(m.status),
       isActive := u.isActive.GetOr(m.isActive),
       endMonth := u.endMonth.GetOr(m.endMonth),
       autoRenewalEnabled := u.autoRenewalEnabled.GetOr(m.autoRenewalEnabled))
  }

  const UNKNOWN_ARGUMENT := "Unknown argument"

  /** The columns of `user_memberships` an update may write, spelled as the repository's create call spells them. */
  const MEMBERSHIP_COLUMNS: set<string> :=
    {"user_id", "plan_id", "payment_id", "start_date", "end_date", "digital_pass_code",
     "status", "is_active", "auto_renewal_enabled", "updated_at"}

  /** The keys of the update object the service builds, in the service's camelCase. */
  function ServiceKeys(u: MembershipUpdate): set<string> {
    (if u.status.Some? then {"status"} else {})
    + (if u.isActive.Some? then {"isActive"} else {})
    + (if u.endMonth.Some? then {"endDate"} else {})
    + (if u.autoRenewalEnabled.Some? then {"autoRenewalEnabled"} else {})
  }

  /** The same keys spelled as the columns they are meant for. */
  function ColumnKeys(u: MembershipUpdate): set<string> {
    (if u.status.Some? then {"status"} else {})
    + (if u.isActive.Some? then {"is_active"} else {})
    + (if u.endMonth.Some? then {"end_date"} else {})
    + (if u.autoRenewalEnabled.Some? then {"auto_renewal_enabled"} else {})
  }

  /**
   * The repository update given the keys of `data`: the database client
   * refuses a call naming a field that is not a column, and otherwise
   * overwrites the given columns.
   */
  function UpdateRow(m: Membership, u: MembershipUpdate, keys: set<string>): Result<Membership, string> {
    if keys + {"updated_at"} <= MEMBERSHIP_COLUMNS then Success(Apply(m, u)) else Failure(UNKNOWN_ARGUMENT)
  }

  /**
   * `membershipRepository.updateUserMembership` as written: the service's
   * camelCase keys are spread into `data` unchanged, so only an update that
   * sets the status alone (or nothing) reaches the table.
   */
  function UpdateAsWritten(m: Membership, u: MembershipUpdate): (r: Result<Membership, string>)
    ensures r.Success? <==> u.isActive.None? && u.endMonth.None? && u.autoRenewalEnabled.None?
    ensures r.Success? ==> r.value == m.(status := u.status.GetOr(m.status))
    ensures r.Failure? ==> r.error == UNKNOWN_ARGUMENT
  {
    var r := UpdateRow(m, u, ServiceKeys(u));
    assert u.isActive.Some? ==> "isActive" in ServiceKeys(u) && "isActive" !in MEMBERSHIP_COLUMNS;
    assert u.endMonth.Some? ==> "endDate" in ServiceKeys(u) && "endDate" !in MEMBERSHIP_COLUMNS;
    assert u.autoRenewalEnabled.Some? ==>
             "autoRenewalEnabled" in ServiceKeys(u) && "autoRenewalEnabled" !in MEMBERSHIP_COLUMNS;
    r
  }

  /** As written, every cancel, every renew and every call that sets the automatic renewal is refused. */
  lemma ActionsRefusedAsWritten(m: Membership, action: string, autoRenewalEnabled: Option<bool>)
    requires action == "cancel" || action == "renew" || autoRenewalEnabled.Some?
    ensures UpdateAsWritten(m, UpdateFor(m, action, autoRenewalEnabled)) == Failure(UNKNOWN_ARGUMENT)
  {
  }

  /** The update with its keys spelled as the columns: it always reaches the table, with the effect of `Apply`. */
  function UpdateIntended(m: Membership, u: MembershipUpdate): (r: Result<Membership, string>)
    ensures r == Success(Apply(m, u))
  {
    UpdateRow(m, u, ColumnKeys(u))
  }

  /** Cancelling leaves a cancelled, inactive membership that renews only when asked to in the same call. */
  lemma CancelMeaning(m: Membership, autoRenewalEnabled: Option<bool>)
    ensures var n := Apply(m, UpdateFor(m, "cancel", autoRenewalEnabled));
            && n.status == "cancelled" && !n.isActive
            && n.autoRenewalEnabled == autoRenewalEnabled.GetOr(false)
            && n.endMonth == m.endMonth && n.startMonth == m.startMonth
  {
  }

  /** Renewing reactivates the membership and extends its end by its plan's months, from the old end. */
  lemma RenewMeaning(m: Membership, autoRenewalEnabled: Option<bool>)
    ensures var n := Apply(m, UpdateFor(m, "renew", autoRenewalEnabled));
            && n.status == "active" && n.isActive
            && n.endMonth == m.endMonth + m.planDurationMonths
            && n.autoRenewalEnabled == autoRenewalEnabled.GetOr(m.autoRenewalEnabled)
  {
  }

  /** Renewing twice extends twice: the action is not idempotent. */
  lemma RenewTwice(m: Membership)
    ensures var once := Apply(m, UpdateFor(m, "renew", None));
            Apply(once, UpdateFor(once, "renew", None)).endMonth == m.endMonth + 2 * m.planDurationMonths
  {
  }

  /** Any other action changes at most the automatic renewal, and only when a value is given. */
  lemma OtherActionMeaning(m: Membership, action: string, autoRenewalEnabled: Option<bool>)
    requires action != "cancel" && action != "renew"
    ensures Apply(m, UpdateFor(m, action, autoRenewalEnabled)) ==
              m.(autoRenewalEnabled := autoRenewalEnabled.GetOr(m.autoRenewalEnabled))
    ensures autoRenewalEnabled.None? ==> Apply(m, UpdateFor(m, action, autoRenewalEnabled)) == m
  {
  }

  /** Cancelling is idempotent. */
  lemma CancelIdempotent(m: Membership, autoRenewalEnabled: Option<bool>)
    ensures var once := Apply(m, UpdateFor(m, "cancel", autoRenewalEnabled));
            Apply(once, UpdateFor(once, "cancel", autoRenewalEnabled)) == once
  {
  }
}
