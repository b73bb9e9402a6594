/** The admin panel (components/AdminPanel.tsx): the list of registered
    users, their status and plan labels, and approving or refusing access.

    The profiles table is not part of this model: the answer of each call is a
    parameter of the method that makes it, and the table's ordering by
    creation date is taken as given in the fetched list. */
module Admin {
  import opened Seqs
  import opened Types

  const UpdateFailedAlert := "Erro ao atualizar status"

  /** The optimistic update: every user whose id is `id` takes status `s`. */
  function WithStatus(users: seq<UserProfile>, id: string, s: AccessStatus): (r: seq<UserProfile>)
    ensures |r| == |users|
    ensures forall i :: 0 <= i < |users| ==>
              r[i].id == users[i].id && r[i].email == users[i].email &&
              r[i].fullName == users[i].fullName && r[i].cpf == users[i].cpf &&
              r[i].phone == users[i].phone && r[i].plan == users[i].plan &&
              r[i].createdAt == users[i].createdAt
    ensures forall i :: 0 <= i < |users| ==> r[i].status == (if users[i].id == id then s else users[i].status)
  {
    seq(|users|, i requires 0 <= i < |users| => if users[i].id == id then users[i].(status := s) else users[i])
  }

  /** Only the targeted user changes; a list without that id is unchanged. */
  lemma WithStatusTouchesTargetOnly(users: seq<UserProfile>, id: string, s: AccessStatus)
    ensures forall i :: 0 <= i < |users| && users[i].id != id ==> WithStatus(users, id, s)[i] == users[i]
    ensures (forall i :: 0 <= i < |users| ==> users[i].id != id) ==> WithStatus(users, id, s) == users
  {
  }

  /** Repeating an update changes nothing more, and a later update of the same
      user overrides an earlier one. */
  lemma WithStatusRepeat(users: seq<UserProfile>, id: string, s: AccessStatus, t: AccessStatus)
    ensures WithStatus(WithStatus(users, id, s), id, s) == WithStatus(users, id, s)
    ensures WithStatus(WithStatus(users, id, s), id, t) == WithStatus(users, id, t)
  {
    var a := WithStatus(WithStatus(users, id, s), id, t);
    var b := WithStatus(users, id, t);
    assert forall i :: 0 <= i < |users| ==> a[i] == b[i];
    var c := WithStatus(WithStatus(users, id, s), id, s);
    var d := WithStatus(users, id, s);
    assert forall i :: 0 <= i < |users| ==> c[i] == d[i];
  }

  /** `formatPlan`. */
  function FormatPlan(plan: Option<BillingPlan>): (t: string)
    ensures t == "-" <==> plan.None?
  {
    match plan
    case Some(Monthly) => "Mensal"
    case Some(Quarterly) => "Trimestral"
    case None => "-"
  }

  /** The status badge. */
  function StatusLabel(s: AccessStatus): (t: string)
    ensures t == "Aprovado" <==> s == Approved
    ensures t == "Recusado" <==> s == Rejected
  {
    if s == Approved then "Aprovado" else if s == Rejected then "Recusado" else "Pendente"
  }

  /** The approve button is offered unless the user is already approved. */
  predicate CanApprove(u: UserProfile)
  {
    u.status != Approved
  }

  /** The refuse button is offered unless the user is already refused. */
  predicate CanReject(u: UserProfile)
  {
    u.status != Rejected
  }

  /** Every row offers at least one action and a pending row offers both; an
      action offered always changes the status. */
  lemma ActionsOffered(u: UserProfile)
    ensures CanApprove(u) || CanReject(u)
    ensures CanApprove(u) && CanReject(u) <==> u.status == Pending
    ensures CanApprove(u) ==> u.(status := Approved).status != u.status
    ensures CanReject(u) ==> u.(status := Rejected).status != u.status
  {
  }

  /** The badge tells the three statuses apart. */
  lemma StatusLabelsDistinct(s: AccessStatus, t: AccessStatus)
    ensures StatusLabel(s) == StatusLabel(t) <==> s == t
  {
  }

  /** The plan column tells the two plans and their absence apart. */
  lemma PlanLabelsDistinct(p: Option<BillingPlan>, q: Option<BillingPlan>)
    ensures FormatPlan(p) == FormatPlan(q) <==> p == q
  {
  }

  class AdminPanel {
    var users: seq<UserProfile>
    var loading: bool
    /** The alerts shown, oldest first. */
    var alerts: seq<string>

    constructor()
      ensures users == [] && loading && alerts == []
    {
      users, loading, alerts := [], true, [];
    }

    /** `fetchUsers`: a failed query keeps the current list. */
    method Fetch(reply: Option<seq<UserProfile>>)
      modifies this
      ensures users == (if reply.Some? then reply.value else old(users))
      ensures !loading && alerts == old(alerts)
    {
      loading := true;
      if reply.Some? {
        users := reply.value;
      }
      loading := false;
    }

    /** `updateUserStatus`: on success only the user with that id takes the
        new status; on failure the list is unchanged and an alert is shown. */
    method UpdateUserStatus(id: string, newStatus: AccessStatus, succeeded: bool)
      requires newStatus != Pending
      modifies this
      ensures loading == old(loading)
      ensures succeeded ==> users == WithStatus(old(users), id, newStatus) && alerts == old(alerts)
      ensures !succeeded ==> users == old(users) && alerts == old(alerts) + [UpdateFailedAlert]
    {
      if succeeded {
        users := WithStatus(users, id, newStatus);
      } else {
        alerts := alerts + [UpdateFailedAlert];
      }
    }
  }
}
