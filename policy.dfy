/**
 Who may do what with an order (PedidoPolicy). The administrator is recognised by
 a fixed e-mail address; ownership by the order's user id.
 */
module Policy {
  import opened Domain

  datatype User = User(id: UserId, email: string)

  const AdminEmail: string := "admin@gomitas.com"

  /** The abilities the policy decides. */
  datatype Ability = ViewAny | View | Create | Update | Cancel | Delete

  predicate IsAdmin(u: User)
  {
    u.email == AdminEmail
  }

  predicate IsOwner(u: User, o: Order)
  {
    u.id == o.owner
  }

  /** The policy's answer for user `u`, ability `a` and order `o` (ignored by ViewAny and Create). */
  predicate Can(u: User, a: Ability, o: Order)
  {
    match a
    case ViewAny => IsAdmin(u)
    case View => IsAdmin(u) || IsOwner(u, o)
    case Create => true
    case Update => IsAdmin(u) || IsOwner(u, o)
    case Cancel => IsAdmin(u)
    case Delete => IsAdmin(u) || IsOwner(u, o)
  }

  /** The policy looks at an order only through its owner: status, total and lines
      never change an answer (so it would allow deleting a delivered order). */
  lemma OnlyOwnerMatters(u: User, a: Ability, o: Order, o': Order)
    requires o.owner == o'.owner
    ensures Can(u, a, o) <==> Can(u, a, o')
  {
  }

  /** A user who is neither the administrator nor the order's owner may only create. */
  lemma StrangerMayOnlyCreate(u: User, a: Ability, o: Order)
    requires !IsAdmin(u) && u.id != o.owner
    ensures Can(u, a, o) <==> a == Create
  {
  }

  /** Whatever any user may do with an order, the administrator may do too. */
  lemma AdminDominates(u: User, admin: User, a: Ability, o: Order)
    requires IsAdmin(admin)
    ensures Can(u, a, o) ==> Can(admin, a, o)
  {
  }

  /** Cancelling is the strictest ability: whoever may cancel may also update and delete,
      while an owner who is not the administrator may update and delete without cancelling. */
  lemma CancelIsStrictest(u: User, o: Order)
    ensures Can(u, Cancel, o) ==> Can(u, Update, o) && Can(u, Delete, o)
    ensures IsOwner(u, o) && !IsAdmin(u) ==> Can(u, Update, o) && Can(u, Delete, o) && !Can(u, Cancel, o)
  {
  }
}
