/** The two permission classes of the API, as predicates over the request. */
module Permissions {
  import opened Models

  /** DRF's SAFE_METHODS. */
  predicate IsSafeMethod(verb: string) {
    verb == "GET" || verb == "HEAD" || verb == "OPTIONS"
  }

  predicate IsSuperuser(who: Requester) {
    who.Authenticated? && who.user.isSuperuser
  }

  /** `obj.author == request.user`; an anonymous user is nobody's author. */
  predicate IsAuthorOf(who: Requester, author: UserId) {
    who.Authenticated? && who.user.id == author
  }

  /** `IsAuthorOrAdminOrReadOnly.has_object_permission` for an object written by `author`. */
  function HasObjectPermission(verb: string, who: Requester, author: UserId): (allowed: bool)
    ensures IsSafeMethod(verb) ==> allowed
    ensures IsSuperuser(who) ==> allowed
    ensures IsAuthorOf(who, author) ==> allowed
    ensures verb == "POST" ==> allowed
    ensures allowed ==> IsSafeMethod(verb) || IsSuperuser(who) || IsAuthorOf(who, author) || verb == "POST"
  {
    IsSafeMethod(verb) || (IsSuperuser(who) || IsAuthorOf(who, author) || verb == "POST")
  }

  /** `IsAdminUser.has_permission`: an authenticated staff user. */
  predicate IsAdmin(who: Requester) {
    who.Authenticated? && who.user.isStaff
  }

  /** `IsAdminOrReadOnly.has_permission`. */
  function HasAdminOrReadOnlyPermission(verb: string, who: Requester): (allowed: bool)
    ensures IsSafeMethod(verb) ==> allowed
    ensures !IsSafeMethod(verb) ==> (allowed <==> IsAdmin(who))
  {
    IsSafeMethod(verb) || IsAdmin(who)
  }

  /** Someone who is neither a superuser nor the author may only read or POST on an object. */
  lemma OthersMayOnlyReadOrPost(verb: string, who: Requester, author: UserId)
    requires !IsSuperuser(who) && !IsAuthorOf(who, author)
    ensures HasObjectPermission(verb, who, author) <==> IsSafeMethod(verb) || verb == "POST"
  {
  }

  /** An anonymous visitor is nobody's author and no superuser: only reads and POST get through. */
  lemma AnonymousMayOnlyReadOrPost(verb: string, author: UserId)
    ensures HasObjectPermission(verb, Anonymous, author) <==> IsSafeMethod(verb) || verb == "POST"
    ensures HasAdminOrReadOnlyPermission(verb, Anonymous) <==> IsSafeMethod(verb)
  {
  }
}
