/** The place-group creation form written in TypeScript: member ids are
    trimmed before they are added. */
module CreatePlaceGroupForm {
  import opened Text
  import opened FormData

  /** `handleAddMember`: when the typed id is not blank, one member with the
      trimmed id and the default permission goes last and the typed id is
      cleared. */
  function AddMember(form: Form): (r: Form)
    ensures Blank(form.newMemberId) ==> r == form
    ensures !Blank(form.newMemberId) ==>
      && r.members == form.members + [Member(Trim(form.newMemberId), form.defaultPermission)]
      && r.newMemberId == ""
      && forall other: Field :: !other.Members? && !other.NewMemberId? ==> Read(r, other) == Read(form, other)
  {
    if Trim(form.newMemberId) != "" then
      var newMember := Member(Trim(form.newMemberId), form.defaultPermission);
      InputChange(InputChange(form, Members(form.members + [newMember])), NewMemberId(""))
    else form
  }

  /** An added id never starts or ends with whitespace, and is what trimming
      it again gives. */
  lemma AddedIdIsTrimmed(form: Form)
    requires !Blank(form.newMemberId)
    ensures var id := AddMember(form).members[|form.members|].id;
      id != "" && !IsWhitespace(id[0]) && !IsWhitespace(id[|id| - 1]) && Trim(id) == id
  {
    TrimIdempotent(form.newMemberId);
  }

  /** The form opens with one editor and `editor` as the default
      permission, so the first member added from it joins that editor as a
      second editor, under its trimmed id. */
  lemma AddToInitial(typed: string)
    requires !Blank(typed)
    ensures var r := AddMember(Initial.form.(newMemberId := typed));
      && r.members == [Member("qhdud4957", "editor"), Member(Trim(typed), "editor")]
      && r.newMemberId == ""
  {
  }
}
