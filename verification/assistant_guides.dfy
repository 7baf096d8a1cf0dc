/** The backend's registry of assistant guides: a closed enumeration with stable integer
    ids, and the ordered list of guides currently served. */
module AssistantGuides {
  import opened Outcomes

  datatype AssistantGuide = IssueDetails | IssueStream | DiscoverSidebar

  /** The member's value. Id 2 belongs to no member. */
  function Id(g: AssistantGuide): (id: int)
    ensures id in {1, 3, 4}
  {
    match g
    case IssueDetails => 1
    case IssueStream => 3
    case DiscoverSidebar => 4
  }

  /** The member's name. */
  function Name(g: AssistantGuide): string
  {
    match g
    case IssueDetails => "ISSUE_DETAILS"
    case IssueStream => "ISSUE_STREAM"
    case DiscoverSidebar => "DISCOVER_SIDEBAR"
  }

  const AllGuides: seq<AssistantGuide> := [IssueDetails, IssueStream, DiscoverSidebar]

  const ActiveGuides: seq<AssistantGuide> := [IssueDetails, IssueStream, DiscoverSidebar]

  /** `AssistantGuide(id)`: the member with that value, or `None` where the enum raises. */
  function FromId(id: int): (r: Option<AssistantGuide>)
    ensures r.Some? ==> Id(r.value) == id
    ensures forall g :: Id(g) == id ==> r == Some(g)
    ensures r.None? <==> id !in {1, 3, 4}
  {
    if id == 1 then Some(IssueDetails)
    else if id == 3 then Some(IssueStream)
    else if id == 4 then Some(DiscoverSidebar)
    else None
  }

  /** `AssistantGuide[name]`: the member with that name, or `None` where the enum raises. */
  function FromName(name: string): (r: Option<AssistantGuide>)
    ensures r.Some? ==> Name(r.value) == name
    ensures forall g :: Name(g) == name ==> r == Some(g)
  {
    if name == "ISSUE_DETAILS" then Some(IssueDetails)
    else if name == "ISSUE_STREAM" then Some(IssueStream)
    else if name == "DISCOVER_SIDEBAR" then Some(DiscoverSidebar)
    else None
  }

  predicate IsActive(g: AssistantGuide)
  {
    g in ActiveGuides
  }

  /** The registry's fixed facts: ids exactly 1, 3 and 4, pairwise distinct; id 2 resolves
      to nothing; the active list is the three members in declaration order, without
      duplicates, every entry a member that its id resolves back to. */
  lemma RegistryFacts()
    ensures (set g | g in AllGuides :: Id(g)) == {1, 3, 4}
    ensures forall g: AssistantGuide :: g in AllGuides
    ensures forall g, h :: Id(g) == Id(h) ==> g == h
    ensures FromId(2).None?
    ensures forall g :: FromId(Id(g)) == Some(g) && FromName(Name(g)) == Some(g)
    ensures [Name(ActiveGuides[0]), Name(ActiveGuides[1]), Name(ActiveGuides[2])]
            == ["ISSUE_DETAILS", "ISSUE_STREAM", "DISCOVER_SIDEBAR"]
    ensures [Id(ActiveGuides[0]), Id(ActiveGuides[1]), Id(ActiveGuides[2])] == [1, 3, 4]
    ensures |ActiveGuides| == 3
    ensures forall i, j :: 0 <= i < j < |ActiveGuides| ==> ActiveGuides[i] != ActiveGuides[j]
    ensures forall g :: g in ActiveGuides ==> g in AllGuides && FromId(Id(g)) == Some(g)
    ensures forall g :: IsActive(g)
  {
    forall g: AssistantGuide
      ensures g in AllGuides
    {
      match g
      case IssueDetails => assert AllGuides[0] == g;
      case IssueStream => assert AllGuides[1] == g;
      case DiscoverSidebar => assert AllGuides[2] == g;
    }
    var ids := set g | g in AllGuides :: Id(g);
    assert Id(AllGuides[0]) in ids && Id(AllGuides[1]) in ids && Id(AllGuides[2]) in ids;
  }
}
