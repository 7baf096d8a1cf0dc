/** The rules both guide stores share: who may see a guide, which steps survive,
    and the analytics cue a store emits. */
module GuideRules {
  import opened Outcomes
  import opened JsDates
  import opened Seqs

  /** The signed-in user, as the configuration store reports it. A missing
      `isSuperuser` reads as false; a missing `dateJoined` is `None`. */
  datatype User = User(isSuperuser: bool, dateJoined: Option<int>)

  /** One step of a guide; `target` names the anchor it points at ("" when it has none). */
  datatype Step = Step(title: string, target: string, description: string)

  const DiscoverSidebarKey: string := "discover_sidebar"

  /** The URL hash that force-shows guides. */
  const AssistantHash: string := "#assistant"

  predicate IsSuperuser(user: Option<User>)
  {
    user.Some? && user.value.isSuperuser
  }

  /** `new Date(user?.dateJoined) > day`: an absent user or join date gives an
      invalid date, for which every comparison is false. */
  predicate JoinedAfter(user: Option<User>, day: int)
  {
    user.Some? && user.value.dateJoined.Some? && user.value.dateJoined.value > day
  }

  /** `new Date(user?.dateJoined) >= day`, false for an invalid date. */
  predicate JoinedOnOrAfter(user: Option<User>, day: int)
  {
    user.Some? && user.value.dateJoined.Some? && user.value.dateJoined.value >= day
  }

  /** The filter the stores apply when guides are not force-shown. */
  function ShownToUser(key: string, seen: bool, user: Option<User>): (shown: bool)
    ensures seen ==> !shown
    ensures !seen && IsSuperuser(user) ==> shown
    ensures shown && !IsSuperuser(user) ==> JoinedAfter(user, AssistantThreshold)
    ensures key == DiscoverSidebarKey && !IsSuperuser(user) && JoinedOnOrAfter(user, DiscoverDate) ==> !shown
    ensures user.None? ==> !shown
    ensures (!seen && JoinedAfter(user, AssistantThreshold)
             && !(key == DiscoverSidebarKey && JoinedOnOrAfter(user, DiscoverDate))) ==> shown
  {
    if seen then false
    else if IsSuperuser(user) then true
    else if key == DiscoverSidebarKey && JoinedOnOrAfter(user, DiscoverDate) then false
    else JoinedAfter(user, AssistantThreshold)
  }

  /** The user cases the store's tests walk through for the Discover sidebar guide. */
  lemma DiscoverSidebarCases()
    ensures !ShownToUser(DiscoverSidebarKey, false, None)
    ensures ShownToUser(DiscoverSidebarKey, false, Some(User(true, None)))
    ensures ShownToUser(DiscoverSidebarKey, false, Some(User(false, Some(JsDay(2020, 0, 1)))))
    ensures !ShownToUser(DiscoverSidebarKey, false, Some(User(false, Some(JsDay(2020, 1, 22)))))
    ensures !ShownToUser(DiscoverSidebarKey, true, Some(User(false, Some(JsDay(2020, 0, 1)))))
  {
  }

  /** `targets.every(target => anchors.has(target))`. */
  predicate AllMounted(targets: seq<string>, anchors: set<string>)
  {
    forall t :: t in targets ==> t in anchors
  }

  /** `step.target && anchors.has(step.target)`: an empty target never counts. */
  predicate StepMounted(st: Step, anchors: set<string>)
  {
    st.target != "" && st.target in anchors
  }

  /** The steps of a guide that point at a mounted anchor, in order. */
  function MountedSteps(steps: seq<Step>, anchors: set<string>): (r: seq<Step>)
    ensures forall st :: st in r <==> st in steps && StepMounted(st, anchors)
  {
    Filter(steps, st => StepMounted(st, anchors))
  }

  /** `MountedSteps` keeps exactly the mounted steps in their original order: it keeps
      a single step iff it is mounted, and distributes over concatenation. */
  lemma MountedStepsExact(a: seq<Step>, b: seq<Step>, st: Step, anchors: set<string>)
    ensures MountedSteps(a + b, anchors) == MountedSteps(a, anchors) + MountedSteps(b, anchors)
    ensures MountedSteps([st], anchors) == if StepMounted(st, anchors) then [st] else []
  {
    FilterConcat(a, b, st => StepMounted(st, anchors));
    assert [st][1..] == [];
  }

  /** The anchor set has set semantics: adding an anchor that is already there changes
      nothing, and removing one just added gives back the set there was before. */
  lemma AnchorAddRemove(anchors: set<string>, target: string, a1: set<string>, a2: set<string>)
    requires a1 == anchors + {target} && a2 == a1 - {target}
    ensures target !in anchors ==> a2 == anchors
    ensures target in anchors ==> a1 == anchors
  {
  }

  /** The analytics event a store records when it cues a guide. */
  datatype Cue<G> = Cue(guide: G, organizationId: Option<string>)
}
