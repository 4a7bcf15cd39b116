/**
 * Access rules (app/order/permissions.py): `IsAdminOrOwner` on objects and
 * `IsAdminOrReadOnly` on requests.
 */
module Permissions {
  import opened Wrappers
  import opened Promotions

  /** The requesting user: anonymous, or a signed-in account with its flags. */
  datatype Caller = Anonymous | Member(id: UserId, isStaff: bool, isSuperuser: bool)

  predicate IsStaff(c: Caller) { c.Member? && c.isStaff }

  predicate IsSuperuser(c: Caller) { c.Member? && c.isSuperuser }

  /** Django REST framework's SAFE_METHODS. */
  const SafeMethods: set<string> := {"GET", "HEAD", "OPTIONS"}

  /**
   * `IsAdminOrOwner.has_object_permission`. `owner` is the object's `user`,
   * or `None` when the object has no `user` attribute.
   */
  function HasObjectPermission(c: Caller, owner: Option<UserId>): (r: bool)
    ensures IsStaff(c) || IsSuperuser(c) ==> r
    ensures !IsStaff(c) && !IsSuperuser(c) ==> (r <==> owner.Some? && c.Member? && owner.value == c.id)
  {
    if IsStaff(c) || IsSuperuser(c) then true
    else if owner.Some? then c.Member? && owner.value == c.id
    else false
  }

  /** `IsAdminOrReadOnly.has_permission`. */
  function HasPermission(c: Caller, verb: string): (r: bool)
    ensures verb in SafeMethods ==> r
    ensures verb !in SafeMethods ==> (r <==> c.Member? && c.isStaff)
  {
    if verb in SafeMethods then true
    else c.Member? && c.isStaff
  }

  /** A superuser who is not staff may open any object but may not write. */
  lemma SuperuserAloneCannotWrite(id: UserId, owner: Option<UserId>)
    ensures HasObjectPermission(Member(id, false, true), owner)
    ensures !HasPermission(Member(id, false, true), "POST")
  {
  }

  /** Whoever may write may also open every object. */
  lemma WritersOpenEverything(c: Caller, verb: string, owner: Option<UserId>)
    requires verb !in SafeMethods && HasPermission(c, verb)
    ensures HasObjectPermission(c, owner)
  {
  }

  /** Anonymous callers may read but never open an object, owned or not. */
  lemma AnonymousReadsOnly(verb: string, owner: Option<UserId>)
    ensures HasPermission(Anonymous, verb) <==> verb in SafeMethods
    ensures !HasObjectPermission(Anonymous, owner)
  {
  }
}
