/** `createPlaceGroupRequest`: turning the create form's choices into the
    request record the place-group service expects. */
module PlaceGroupsApi {
  datatype Status = PUBLIC | PRIVATE

  /** The category enum; `CATEGORY_UNKOWN` keeps the service's spelling. */
  datatype Category = CATEGORY_UNKOWN | DATE | FAMILY

  datatype CreateRequest = CreateRequest(
    icon: string, name: string, status: Status, category: Category, memo: string, link: string)

  const DateLabel: string := "데이트"
  const FamilyLabel: string := "가족"
  const PinIcon: string := "📍"

  function StatusOf(isPublic: bool): (s: Status)
    ensures s == PUBLIC <==> isPublic
  {
    if isPublic then PUBLIC else PRIVATE
  }

  /** The form's category choice as an enum value: the two known labels map
      to their values, everything else to `CATEGORY_UNKOWN`. */
  function CategoryOf(choice: string): (c: Category)
    ensures c == DATE <==> choice == DateLabel
    ensures c == FAMILY <==> choice == FamilyLabel
    ensures c == CATEGORY_UNKOWN <==> choice != DateLabel && choice != FamilyLabel
  {
    if choice == DateLabel then DATE
    else if choice == FamilyLabel then FAMILY
    else CATEGORY_UNKOWN
  }

  /** The label the form shows for a category that has one. */
  function LabelOf(c: Category): string
    requires c != CATEGORY_UNKOWN
  {
    match c
    case DATE => DateLabel
    case FAMILY => FamilyLabel
  }

  function CreatePlaceGroupRequest(name: string, isPublic: bool, category: string, memo: string, link: string): (r: CreateRequest)
    ensures r.icon == PinIcon
    ensures r.name == name && r.memo == memo && r.link == link
    ensures r.status == StatusOf(isPublic) && r.category == CategoryOf(category)
  {
    CreateRequest(PinIcon, name, StatusOf(isPublic), CategoryOf(category), memo, link)
  }

  /** Every named category can be chosen: its label maps back to it. */
  lemma CategoryOfLabel(c: Category)
    requires c != CATEGORY_UNKOWN
    ensures CategoryOf(LabelOf(c)) == c
  {
  }

  /** Two requests from the same form values are equal, and requests that
      differ in a copied field or in visibility are different. */
  lemma RequestDeterminesInputs(n1: string, p1: bool, c1: string, m1: string, l1: string,
                                n2: string, p2: bool, c2: string, m2: string, l2: string)
    requires CreatePlaceGroupRequest(n1, p1, c1, m1, l1) == CreatePlaceGroupRequest(n2, p2, c2, m2, l2)
    ensures n1 == n2 && p1 == p2 && m1 == m2 && l1 == l2
    ensures CategoryOf(c1) == CategoryOf(c2)
  {
    assert StatusOf(p1) == StatusOf(p2);
  }
}
