/** The list-creation form written in JavaScript: member ids are kept as
    typed, and a member's permission can be edited. */
module CreateListForm {
  import opened Lists
  import opened Text
  import opened FormData

  /** `handleAddMember`: when the typed id is not blank, one member with
      that id exactly as typed, spaces included, and the default permission
      goes last, and the typed id is cleared. Existing ids are not checked. */
  function AddMember(form: Form): (r: Form)
    ensures Blank(form.newMemberId) ==> r == form
    ensures !Blank(form.newMemberId) ==>
      && r.members == form.members + [Member(form.newMemberId, form.defaultPermission)]
      && r.newMemberId == ""
      && forall other: Field :: !other.Members? && !other.NewMemberId? ==> Read(r, other) == Read(form, other)
  {
    if Trim(form.newMemberId) != "" then
      var newMember := Member(form.newMemberId, form.defaultPermission);
      InputChange(InputChange(form, Members(form.members + [newMember])), NewMemberId(""))
    else form
  }

  /** Adding the same id twice gives two members with that id. */
  lemma AddAllowsDuplicates(form: Form, id: string)
    requires !Blank(id)
    ensures var twice := AddMember(AddMember(form.(newMemberId := id)).(newMemberId := id));
      |twice.members| == |form.members| + 2 &&
      twice.members[|form.members|].id == id && twice.members[|form.members| + 1].id == id
  {
  }

  /** Removing the id just added removes what adding put in, and every
      earlier member with that id too. */
  lemma RemoveAfterAdd(form: Form)
    requires !Blank(form.newMemberId)
    ensures RemoveMember(AddMember(form), form.newMemberId).members == WithoutMember(form.members, form.newMemberId)
  {
    RemoveUndoesAppend(form.members, Member(form.newMemberId, form.defaultPermission));
  }

  /** `members.map(m => m.id === memberId ? { ...m, permission } : m)`. */
  function WithPermission(members: seq<Member>, memberId: string, permission: string): (r: seq<Member>)
    ensures |r| == |members|
    ensures forall i :: 0 <= i < |members| ==> r[i].id == members[i].id
    ensures forall i :: 0 <= i < |members| && members[i].id == memberId ==> r[i].permission == permission
    ensures forall i :: 0 <= i < |members| && members[i].id != memberId ==> r[i] == members[i]
  {
    MapWhere(members, (m: Member) => m.id == memberId, (m: Member) => m.(permission := permission))
  }

  /** `handleMemberPermissionChange(memberId, permission)`. */
  function PermissionChange(form: Form, memberId: string, permission: string): (r: Form)
    ensures r.members == WithPermission(form.members, memberId, permission)
    ensures forall other: Field :: !other.Members? ==> Read(r, other) == Read(form, other)
  {
    InputChange(form, Members(WithPermission(form.members, memberId, permission)))
  }

  /** A permission edit is lost when the member is removed: removing after
      editing is removing. */
  lemma {:induction false} RemoveForgetsPermission(members: seq<Member>, memberId: string, permission: string)
    ensures WithoutMember(WithPermission(members, memberId, permission), memberId) == WithoutMember(members, memberId)
  {
    if members != [] {
      var edited := WithPermission(members, memberId, permission);
      assert edited == [edited[0]] + edited[1..];
      assert members == [members[0]] + members[1..];
      assert edited[1..] == WithPermission(members[1..], memberId, permission);
      RemoveForgetsPermission(members[1..], memberId, permission);
      WithoutMemberKeepsOrder([edited[0]], edited[1..], memberId);
      WithoutMemberKeepsOrder([members[0]], members[1..], memberId);
    }
  }

  /** Editing one member's permission twice keeps the second edit. */
  lemma PermissionChangeTwice(members: seq<Member>, memberId: string, first: string, second: string)
    ensures WithPermission(WithPermission(members, memberId, first), memberId, second)
         == WithPermission(members, memberId, second)
  {
  }
}
