/** The older guide store: guides are an object keyed by guide key, the key set is
    sorted with the default string sort, and cues are de-duplicated by guide id. */
module KeyedGuideStore {
  import opened Outcomes
  import opened StringOrder
  import opened Seqs
  import opened GuideRules
  import opened JsObjects

  /** A guide's server state. */
  datatype ServerEntry = ServerEntry(id: int, seen: bool)

  /** A guide's static content. */
  datatype Content = Content(requiredTargets: seq<string>, steps: seq<Step>)

  /** `{...data[key], ...content[key]}`: the server fields with the content fields added. */
  datatype Guide = Guide(id: int, seen: bool, requiredTargets: seq<string>, steps: seq<Step>)

  /** `{key, ...guides[key], steps}`: the shown guide carries its own key. */
  datatype Selection = Selection(key: string, guide: Guide)

  datatype State = State(
    guides: Obj<Guide>,
    anchors: set<string>,
    currentGuide: Option<Selection>,
    currentStep: nat,
    orgId: Option<string>,
    forceShow: bool,
    prevGuide: Option<Selection>)

  type Result = Outcome<State, Cue<int>>

  const Initial: State := State([], {}, None, 0, None, false, None)

  function MergeEntry(e: ServerEntry, c: Content): (g: Guide)
    ensures g.id == e.id && g.seen == e.seen
    ensures g.requiredTargets == c.requiredTargets && g.steps == c.steps
  {
    Guide(e.id, e.seen, c.requiredTargets, c.steps)
  }

  /** The `reduce` of `updateGuidesWithContent`: keep the data keys that have content,
      in data order, each merged with its content. */
  function WithContent(data: Obj<ServerEntry>, content: map<string, Content>): (r: Obj<Guide>)
    ensures forall k :: k in Keys(r) <==> k in Keys(data) && k in content
    ensures forall k :: k in Keys(r) ==> Get(r, k) == Some(MergeEntry(Get(data, k).value, content[k]))
  {
    if |data| == 0 then []
    else
      var k := data[0].0;
      var t := data[1..];
      assert DistinctKeys(t) by {
        forall i, j | 0 <= i < j < |t|
          ensures t[i].0 != t[j].0
        {
          assert t[i] == data[i + 1] && t[j] == data[j + 1];
        }
      }
      assert Keys(data) == [k] + Keys(t);
      assert k !in Keys(t);
      var rest := WithContent(t, content);
      forall k' | k' in Keys(rest)
        ensures Get(data, k') == Get(t, k')
      {
        assert k' != k;
      }
      if k in content then
        var r: seq<(string, Guide)> := [(k, MergeEntry(data[0].1, content[k]))] + rest;
        assert Keys(r) == [k] + Keys(rest);
        assert DistinctKeys(r) by {
          forall i, j | 0 <= i < j < |r|
            ensures r[i].0 != r[j].0
          {
            if i == 0 {
              assert r[j].0 == Keys(rest)[j - 1];
            } else {
              assert r[i] == rest[i - 1] && r[j] == rest[j - 1];
            }
          }
        }
        r
      else
        rest
  }

  /** The guide is known and all its required targets are mounted. */
  predicate KeyMounted(guides: Obj<Guide>, key: string, anchors: set<string>)
  {
    match Get(guides, key)
    case Some(g) => AllMounted(g.requiredTargets, anchors)
    case None => false
  }

  /** The seen, superuser and join-date rules for the guide under `key`. */
  predicate KeyShown(guides: Obj<Guide>, key: string, user: Option<User>)
  {
    match Get(guides, key)
    case Some(g) => ShownToUser(key, g.seen, user)
    case None => false
  }

  predicate KeyEligible(guides: Obj<Guide>, key: string, anchors: set<string>, forceShow: bool, user: Option<User>)
  {
    KeyMounted(guides, key, anchors) && (forceShow || KeyShown(guides, key, user))
  }

  function Identity(k: string): string
  {
    k
  }

  /** `availableGuides`: the sorted keys filtered on mounted targets and, unless
      force-shown, on the user rules. */
  function AvailableGuides(sortedKeys: seq<string>, guides: Obj<Guide>, anchors: set<string>, forceShow: bool,
                           user: Option<User>): (r: seq<string>)
    requires SortedBy(sortedKeys, Identity)
    ensures SortedBy(r, Identity)
    ensures forall k :: k in r <==> k in sortedKeys && KeyEligible(guides, k, anchors, forceShow, user)
    ensures forall k :: multiset(r)[k] ==
                        if KeyEligible(guides, k, anchors, forceShow, user) then multiset(sortedKeys)[k] else 0
  {
    var mounted := Filter(sortedKeys, (k: string) => KeyMounted(guides, k, anchors));
    FilterSorted(sortedKeys, (k: string) => KeyMounted(guides, k, anchors), Identity);
    if forceShow then mounted
    else
      FilterSorted(mounted, (k: string) => KeyShown(guides, k, user), Identity);
      Filter(mounted, (k: string) => KeyShown(guides, k, user))
  }

  /** The shown guide keeps only its steps that point at mounted anchors. */
  function Pruned(g: Guide, anchors: set<string>): (r: Guide)
    ensures r.id == g.id && r.seen == g.seen && r.requiredTargets == g.requiredTargets
    ensures forall st :: st in r.steps <==> st in g.steps && StepMounted(st, anchors)
    ensures r.steps == MountedSteps(g.steps, anchors)
  {
    g.(steps := MountedSteps(g.steps, anchors))
  }

  /** `Object.keys(guides).sort()`. */
  function SortedKeys(guides: Obj<Guide>): (r: seq<string>)
    ensures SortedBy(r, Identity)
    ensures forall k :: k in r <==> k in Keys(guides)
    ensures multiset(r) == multiset(Keys(guides))
  {
    var r := SortBy(Keys(guides), Identity);
    assert forall k :: k in r <==> k in Keys(guides) by {
      forall k ensures k in r <==> k in Keys(guides) {
        assert k in r <==> k in multiset(r);
        assert k in Keys(guides) <==> k in multiset(Keys(guides));
      }
    }
    r
  }

  /** `key` is eligible and sorts at or before every eligible key. */
  ghost predicate LeastEligibleKey(key: string, guides: Obj<Guide>, anchors: set<string>, forceShow: bool,
                                   user: Option<User>)
  {
    && key in Keys(guides)
    && KeyEligible(guides, key, anchors, forceShow, user)
    && forall k :: k in Keys(guides) && KeyEligible(guides, k, anchors, forceShow, user) ==> LexLe(key, k)
  }

  /** `bestGuide`: the least eligible key, in default string order, with its guide
      (steps pruned); `None` iff no key is eligible. */
  function BestGuide(guides: Obj<Guide>, anchors: set<string>, forceShow: bool, user: Option<User>)
    : (best: Option<Selection>)
    ensures best.None? ==> forall k :: k in Keys(guides) ==> !KeyEligible(guides, k, anchors, forceShow, user)
    ensures best.Some? ==> LeastEligibleKey(best.value.key, guides, anchors, forceShow, user)
    ensures best.Some? ==> best.value.guide == Pruned(Get(guides, best.value.key).value, anchors)
  {
    var available := AvailableGuides(SortedKeys(guides), guides, anchors, forceShow, user);
    if |available| > 0 then
      var key := available[0];
      HeadIsLeast(available, Identity);
      assert LeastEligibleKey(key, guides, anchors, forceShow, user);
      Some(Selection(key, Pruned(Get(guides, key).value, anchors)))
    else
      None
  }

  /** `updatePrevGuide`: cue the best guide when its id differs from the previous one's. */
  function UpdatePrevGuide(prev: Option<Selection>, best: Option<Selection>, orgId: Option<string>)
    : (r: (Option<Selection>, Option<Cue<int>>))
    ensures r.1.Some? <==> best.Some? && (prev.None? || prev.value.guide.id != best.value.guide.id)
    ensures r.1.Some? ==> r.1.value == Cue(best.value.guide.id, orgId) && r.0 == best
    ensures r.1.None? ==> r.0 == prev
  {
    if best.None? then (prev, None)
    else if prev.None? || prev.value.guide.id != best.value.guide.id then
      (best, Some(Cue(best.value.guide.id, orgId)))
    else (prev, None)
  }

  /** `r` is what `updateCurrentGuide` makes of `s`: it completes, keeps the
      guides, anchors, organisation and force-show flag, shows the best guide from step 0,
      and cues exactly a non-null guide whose id differs from the previous guide's, which
      it then replaces. The handlers that end by reselecting state their outcome through it. */
  predicate Recomputed(s: State, r: Result, user: Option<User>)
  {
    && r.Done?
    && r.state.guides == s.guides && r.state.anchors == s.anchors
    && r.state.orgId == s.orgId && r.state.forceShow == s.forceShow
    && r.state.currentStep == 0
    && r.state.currentGuide == BestGuide(s.guides, s.anchors, s.forceShow, user)
    && (r.cue.Some? <==> r.state.currentGuide.Some? &&
                          (s.prevGuide.None? || s.prevGuide.value.guide.id != r.state.currentGuide.value.guide.id))
    && (r.cue.Some? ==> r.cue.value == Cue(r.state.currentGuide.value.guide.id, s.orgId)
                        && r.state.prevGuide == r.state.currentGuide)
    && (r.cue.None? ==> r.state.prevGuide == s.prevGuide)
  }

  /** `updateCurrentGuide`: show the best guide, reset the step, cue a new id. */
  function UpdateCurrentGuide(s: State, user: Option<User>): (r: Result)
    ensures Recomputed(s, r, user)
  {
    var best := BestGuide(s.guides, s.anchors, s.forceShow, user);
    var updated := UpdatePrevGuide(s.prevGuide, best, s.orgId);
    Done(s.(currentGuide := best, currentStep := 0, prevGuide := updated.0), updated.1)
  }

  /** `updateGuidesWithContent`: replace the guides by the merged data, then reselect. */
  function UpdateGuidesWithContent(s: State, data: Obj<ServerEntry>, content: map<string, Content>,
                                   user: Option<User>): (r: Result)
    ensures r.Done?
    ensures forall k :: k in Keys(r.state.guides) <==> k in Keys(data) && k in content
    ensures forall k :: k in Keys(r.state.guides) ==>
              Get(r.state.guides, k) == Some(MergeEntry(Get(data, k).value, content[k]))
    ensures Recomputed(s.(guides := WithContent(data, content)), r, user)
  {
    UpdateCurrentGuide(s.(guides := WithContent(data, content)), user)
  }

  /** `onFetchSucceeded`: a falsy payload (`null`, `undefined`, an empty-string body) changes
      nothing and is `None` here; any object, even `{}`, is truthy and is merged. */
  function OnFetchSucceeded(s: State, data: Option<Obj<ServerEntry>>, content: map<string, Content>,
                            user: Option<User>): (r: Result)
    ensures r.Done?
    ensures data.None? ==> r == Done(s, None)
    ensures data.Some? ==> forall k :: k in Keys(r.state.guides) <==> k in Keys(data.value) && k in content
    ensures data.Some? ==> forall k :: k in Keys(r.state.guides) ==>
              Get(r.state.guides, k) == Some(MergeEntry(Get(data.value, k).value, content[k]))
    ensures data.Some? ==> Recomputed(s.(guides := WithContent(data.value, content)), r, user)
  {
    match data
    case None => Done(s, None)
    case Some(d) => UpdateGuidesWithContent(s, d, content, user)
  }

  /** `onCloseGuide`: mark `guides[currentGuide.key]` seen, stop force-showing, reselect.
      Without a current guide, or when its key is gone, the lookup throws before any change. */
  function OnCloseGuide(s: State, user: Option<User>): (r: Result)
    ensures s.currentGuide.None? ==> r == Threw(s)
    ensures s.currentGuide.Some? && s.currentGuide.value.key !in Keys(s.guides) ==> r == Threw(s)
    ensures s.currentGuide.Some? && s.currentGuide.value.key in Keys(s.guides) ==>
              var key := s.currentGuide.value.key;
              && r.Done?
              && !r.state.forceShow
              && Keys(r.state.guides) == Keys(s.guides)
              && Get(r.state.guides, key) == Some(Get(s.guides, key).value.(seen := true))
              && (forall k :: k != key ==> Get(r.state.guides, k) == Get(s.guides, k))
              && Recomputed(s.(guides := r.state.guides, forceShow := false), r, user)
  {
    match s.currentGuide
    case None => Threw(s)
    case Some(current) =>
      match Get(s.guides, current.key)
      case None => Threw(s)
      case Some(g) =>
        UpdateCurrentGuide(s.(guides := Update(s.guides, current.key, g.(seen := true)), forceShow := false), user)
  }

  /** `onNextStep`: advance the step counter by one and change nothing else. */
  function OnNextStep(s: State): (r: Result)
    ensures r.Done? && r.cue.None?
    ensures r.state.currentStep == s.currentStep + 1
    ensures r.state.(currentStep := s.currentStep) == s
  {
    Done(s.(currentStep := s.currentStep + 1), None)
  }

  /** `onRegisterAnchor`: add the anchor, then reselect. */
  function OnRegisterAnchor(s: State, target: string, user: Option<User>): (r: Result)
    ensures r.state.anchors == s.anchors + {target}
    ensures Recomputed(s.(anchors := s.anchors + {target}), r, user)
  {
    UpdateCurrentGuide(s.(anchors := s.anchors + {target}), user)
  }

  /** `onUnregisterAnchor`: remove the anchor, then reselect. */
  function OnUnregisterAnchor(s: State, target: string, user: Option<User>): (r: Result)
    ensures r.state.anchors == s.anchors - {target}
    ensures Recomputed(s.(anchors := s.anchors - {target}), r, user)
  {
    UpdateCurrentGuide(s.(anchors := s.anchors - {target}), user)
  }

  /** `onURLChange`: force-show exactly when the hash is `#assistant`, then reselect. */
  function OnURLChange(s: State, hash: string, user: Option<User>): (r: Result)
    ensures r.state.forceShow <==> hash == AssistantHash
    ensures Recomputed(s.(forceShow := hash == AssistantHash), r, user)
  {
    UpdateCurrentGuide(s.(forceShow := hash == AssistantHash), user)
  }

  /** `onSetActiveOrganization`: remember the organisation, then reselect. */
  function OnSetActiveOrganization(s: State, org: Option<string>, user: Option<User>): (r: Result)
    ensures r.state.orgId == org
    ensures Recomputed(s.(orgId := org), r, user)
    ensures r.cue.Some? ==> r.cue.value.organizationId == org
  {
    UpdateCurrentGuide(s.(orgId := org), user)
  }
}
