/** `CustomUserAdmin.get_readonly_fields` (apps/users/admin.py). */
module UserAdmin {
  import opened Wrappers
  import opened UserModels

  /** `CustomUserAdmin.readonly_fields`. */
  const READONLY_FIELDS: seq<string> := ["email", "role", "date_of_birth", "username", "last_login", "date_joined"]

  /** The change form's fields: those of `fieldsets`. */
  const FORM_FIELDS: seq<string> := ["email", "role", "username", "date_of_birth", "is_active", "last_login", "date_joined"]

  /** `obj` is absent on the add form. */
  function GetReadonlyFields(obj: Option<User>): (r: seq<string>)
    ensures obj.None? ==> r == []
    ensures obj.Some? ==> |r| == |READONLY_FIELDS| + (if obj.value.isSuperuser then 1 else 0)
    ensures obj.Some? ==> r[..|READONLY_FIELDS|] == READONLY_FIELDS
    ensures obj.Some? ==> ("is_active" in r <==> obj.value.isSuperuser)
  {
    match obj
    case None => []
    case Some(u) => if !u.isSuperuser then READONLY_FIELDS else READONLY_FIELDS + ["is_active"]
  }

  /**
    On a stored user "email" and "role" are always read-only; of the change
    form's fields exactly "is_active" stays editable for a non-superuser, and none
    for a superuser.
   */
  lemma ReadonlyFieldSelection(u: User, f: string)
    ensures "email" in GetReadonlyFields(Some(u)) && "role" in GetReadonlyFields(Some(u))
    ensures f in FORM_FIELDS ==> (f !in GetReadonlyFields(Some(u)) <==> f == "is_active" && !u.isSuperuser)
    ensures f !in GetReadonlyFields(None)
    ensures f in GetReadonlyFields(Some(u)) <==> f in READONLY_FIELDS || (f == "is_active" && u.isSuperuser)
  {
    assert READONLY_FIELDS[0] == "email" && READONLY_FIELDS[1] == "role";
    assert GetReadonlyFields(Some(u))[..|READONLY_FIELDS|] == READONLY_FIELDS;
  }
}
