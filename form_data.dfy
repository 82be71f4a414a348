/** The record both group-creation forms edit, and the edits they share:
    replacing one field, choosing an icon, and removing members by id. */
module FormData {
  import opened Lists

  datatype Member = Member(id: string, permission: string)

  datatype Form = Form(
    icon: string, name: string, isPublic: bool, category: string, defaultPermission: string,
    members: seq<Member>, newMemberId: string, memo: string, relatedUrl: string)

  /** A form and the icon its picker shows as selected. */
  datatype FormState = FormState(form: Form, selectedIcon: string)

  /** The picker's entry that opens no icon. */
  const MoreIcon: string := "+"
  const Icons: seq<string> := ["🐷", "🎂", "🍺", "🍴", "❤️", MoreIcon]

  /** The state both forms open with. */
  const Initial: FormState := FormState(
    Form("🐷", "특별한 날 가기 좋은 가성비 데이트 장소", true, "데이트", "editor",
         [Member("qhdud4957", "editor")], "", "", ""),
    "🐷")

  /** A field with the value written into it. */
  datatype Field =
    | Icon(icon: string)
    | Name(name: string)
    | IsPublic(isPublic: bool)
    | Category(category: string)
    | DefaultPermission(defaultPermission: string)
    | Members(members: seq<Member>)
    | NewMemberId(newMemberId: string)
    | Memo(memo: string)
    | RelatedUrl(relatedUrl: string)

  /** The same field of `form`, read back. */
  function Read(form: Form, field: Field): Field {
    match field
    case Icon(_) => Icon(form.icon)
    case Name(_) => Name(form.name)
    case IsPublic(_) => IsPublic(form.isPublic)
    case Category(_) => Category(form.category)
    case DefaultPermission(_) => DefaultPermission(form.defaultPermission)
    case Members(_) => Members(form.members)
    case NewMemberId(_) => NewMemberId(form.newMemberId)
    case Memo(_) => Memo(form.memo)
    case RelatedUrl(_) => RelatedUrl(form.relatedUrl)
  }

  /** Which field a `Field` names, whatever its value. */
  predicate SameField(a: Field, b: Field) {
    a.Icon? == b.Icon? && a.Name? == b.Name? && a.IsPublic? == b.IsPublic? &&
    a.Category? == b.Category? && a.DefaultPermission? == b.DefaultPermission? &&
    a.Members? == b.Members? && a.NewMemberId? == b.NewMemberId? && a.Memo? == b.Memo? &&
    a.RelatedUrl? == b.RelatedUrl?
  }

  /** `handleInputChange(field, value)`: that field reads back the value
      and every other field reads as before. */
  function InputChange(form: Form, value: Field): (r: Form)
    ensures Read(r, value) == value
    ensures forall other: Field :: !SameField(other, value) ==> Read(r, other) == Read(form, other)
  {
    match value
    case Icon(v) => form.(icon := v)
    case Name(v) => form.(name := v)
    case IsPublic(v) => form.(isPublic := v)
    case Category(v) => form.(category := v)
    case DefaultPermission(v) => form.(defaultPermission := v)
    case Members(v) => form.(members := v)
    case NewMemberId(v) => form.(newMemberId := v)
    case Memo(v) => form.(memo := v)
    case RelatedUrl(v) => form.(relatedUrl := v)
  }

  /** Writing back what a field already holds changes nothing. */
  lemma InputChangeOfRead(form: Form, field: Field)
    ensures InputChange(form, Read(form, field)) == form
  {
  }

  /** `handleIconSelect(icon)`: the "+" entry is ignored; any other icon
      becomes both the selected icon and the form's icon. */
  function IconSelect(state: FormState, icon: string): (r: FormState)
    ensures icon == MoreIcon ==> r == state
    ensures icon != MoreIcon ==> r.selectedIcon == icon && r.form == InputChange(state.form, Icon(icon))
  {
    if icon != MoreIcon then FormState(InputChange(state.form, Icon(icon)), icon) else state
  }

  /** After choosing an icon, the picker and the form agree. */
  lemma IconSelectAgrees(state: FormState, icon: string)
    requires state.selectedIcon == state.form.icon
    ensures IconSelect(state, icon).selectedIcon == IconSelect(state, icon).form.icon
  {
  }

  /** `members.filter(m => m.id !== memberId)`. */
  function WithoutMember(members: seq<Member>, memberId: string): (r: seq<Member>)
    ensures forall i :: 0 <= i < |r| ==> r[i].id != memberId && r[i] in members
    ensures forall i :: 0 <= i < |members| && members[i].id != memberId ==> members[i] in r
  {
    Filter(members, (m: Member) => m.id != memberId)
  }

  /** `handleRemoveMember(memberId)`: only the member list changes. */
  function RemoveMember(form: Form, memberId: string): (r: Form)
    ensures r.members == WithoutMember(form.members, memberId)
    ensures forall other: Field :: !other.Members? ==> Read(r, other) == Read(form, other)
  {
    InputChange(form, Members(WithoutMember(form.members, memberId)))
  }

  /** Removal keeps the survivors in order. */
  lemma WithoutMemberKeepsOrder(a: seq<Member>, b: seq<Member>, memberId: string)
    ensures WithoutMember(a + b, memberId) == WithoutMember(a, memberId) + WithoutMember(b, memberId)
  {
    FilterAppend(a, b, (m: Member) => m.id != memberId);
  }

  /** Removing a member who is not there changes nothing. */
  lemma RemoveAbsentMember(form: Form, memberId: string)
    requires forall i :: 0 <= i < |form.members| ==> form.members[i].id != memberId
    ensures RemoveMember(form, memberId) == form
  {
    FilterKeepsAll(form.members, (m: Member) => m.id != memberId);
  }

  /** The one member that adding appends, when the typed id is not blank. */
  lemma RemoveUndoesAppend(members: seq<Member>, added: Member)
    ensures WithoutMember(members + [added], added.id) == WithoutMember(members, added.id)
  {
    WithoutMemberKeepsOrder(members, [added], added.id);
    assert WithoutMember([added], added.id) == [];
  }
}
