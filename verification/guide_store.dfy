/** The typed guide store: guides are an array of records keyed by their `guide` string.
    Every handler is a pure function from the store state (and the outside inputs it reads:
    the signed-in user, the URL hash, the guide content table) to an `Outcome`. */
module GuideStore {
  import opened Outcomes
  import opened StringOrder
  import opened Seqs
  import opened GuideRules

  /** A guide's seen-state as the server reports it. */
  datatype ServerGuide = ServerGuide(guide: string, seen: bool)

  /** The static content of a guide. */
  datatype GuideContent = GuideContent(guide: string, requiredTargets: seq<string>, steps: seq<Step>)

  /** The content fields a guide gets when matching content exists. */
  datatype Body = Body(requiredTargets: seq<string>, steps: seq<Step>)

  /** A server guide merged with its content; `body` is `None` when no content matched,
      in which case the record has no `requiredTargets` or `steps` at all. */
  datatype Guide = Guide(guide: string, seen: bool, body: Option<Body>)

  datatype State = State(
    guides: seq<Guide>,
    anchors: set<string>,
    currentGuide: Option<Guide>,
    currentStep: nat,
    orgId: Option<string>,
    forceShow: bool,
    prevGuide: Option<Guide>)

  type Result = Outcome<State, Cue<string>>

  const Initial: State := State([], {}, None, 0, None, false, None)

  function GuideKey(g: Guide): string
  {
    g.guide
  }

  /** `guidesContent.find(content => content.guide === key)`: the first match. */
  function FindContent(content: seq<GuideContent>, key: string): (r: Option<GuideContent>)
    ensures r.None? <==> forall c :: c in content ==> c.guide != key
    ensures r.Some? ==> exists i :: 0 <= i < |content| && content[i] == r.value && r.value.guide == key
                                    && forall j :: 0 <= j < i ==> content[j].guide != key
  {
    if |content| == 0 then None
    else if content[0].guide == key then Some(content[0])
    else
      var r := FindContent(content[1..], key);
      assert forall c :: c in content ==> c == content[0] || c in content[1..];
      if r.Some? then
        ghost var i :| 0 <= i < |content[1..]| && content[1..][i] == r.value && r.value.guide == key
                       && forall j :: 0 <= j < i ==> content[1..][j].guide != key;
        assert content[i + 1] == r.value;
        assert forall j :: 0 <= j < i + 1 ==> content[j].guide != key by {
          forall j | 0 <= j < i + 1
            ensures content[j].guide != key
          {
            if j > 0 {
              assert content[j] == content[1..][j - 1];
            }
          }
        }
        r
      else r
  }

  /** `{...serverGuide, ...content}` for the server guide's first matching content. */
  function Merge(sg: ServerGuide, content: seq<GuideContent>): (g: Guide)
    ensures g.guide == sg.guide && g.seen == sg.seen
    ensures g.body.None? <==> forall c :: c in content ==> c.guide != sg.guide
    ensures g.body.Some? ==> exists i :: 0 <= i < |content| && content[i].guide == sg.guide
                                         && g.body.value == Body(content[i].requiredTargets, content[i].steps)
                                         && forall j :: 0 <= j < i ==> content[j].guide != sg.guide
  {
    match FindContent(content, sg.guide)
    case None => Guide(sg.guide, sg.seen, None)
    case Some(c) => Guide(sg.guide, sg.seen, Some(Body(c.requiredTargets, c.steps)))
  }

  /** `data.map(serverGuide => merge)`. */
  function MergeAll(data: seq<ServerGuide>, content: seq<GuideContent>): (r: seq<Guide>)
    ensures |r| == |data|
    ensures forall i :: 0 <= i < |data| ==> r[i] == Merge(data[i], content)
  {
    seq(|data|, i requires 0 <= i < |data| => Merge(data[i], content))
  }

  /** The guide has content and all its required targets are mounted. */
  predicate RequiredMounted(g: Guide, anchors: set<string>)
  {
    g.body.Some? && AllMounted(g.body.value.requiredTargets, anchors)
  }

  /** The guide survives both filters of `updateCurrentGuide`. */
  predicate Eligible(g: Guide, anchors: set<string>, forceShow: bool, user: Option<User>)
  {
    RequiredMounted(g, anchors) && (forceShow || ShownToUser(g.guide, g.seen, user))
  }

  /** `guideOptions`: the sorted guides filtered on mounted targets, then (unless
      force-shown) on the seen, superuser and join-date rules. */
  function Options(sorted: seq<Guide>, anchors: set<string>, forceShow: bool, user: Option<User>): (r: seq<Guide>)
    requires SortedBy(sorted, GuideKey)
    ensures SortedBy(r, GuideKey)
    ensures forall g :: g in r <==> g in sorted && Eligible(g, anchors, forceShow, user)
    ensures forall g :: multiset(r)[g] == if Eligible(g, anchors, forceShow, user) then multiset(sorted)[g] else 0
  {
    var mounted := Filter(sorted, (g: Guide) => RequiredMounted(g, anchors));
    FilterSorted(sorted, (g: Guide) => RequiredMounted(g, anchors), GuideKey);
    if forceShow then mounted
    else
      FilterSorted(mounted, (g: Guide) => ShownToUser(g.guide, g.seen, user), GuideKey);
      Filter(mounted, (g: Guide) => ShownToUser(g.guide, g.seen, user))
  }

  /** The top guide as shown: the guide with only its mounted steps kept. */
  function Pruned(g: Guide, anchors: set<string>): (r: Guide)
    requires g.body.Some?
    ensures r.guide == g.guide && r.seen == g.seen
    ensures r.body.Some? && r.body.value.requiredTargets == g.body.value.requiredTargets
    ensures forall st :: st in r.body.value.steps <==> st in g.body.value.steps && StepMounted(st, anchors)
    ensures r.body.value.steps == MountedSteps(g.body.value.steps, anchors)
  {
    g.(body := Some(g.body.value.(steps := MountedSteps(g.body.value.steps, anchors))))
  }

  /** `updatePrevGuide`: cue the best guide when it is new by key. Returns the new
      previous guide and the cue emitted. */
  function UpdatePrevGuide(prev: Option<Guide>, best: Option<Guide>, orgId: Option<string>)
    : (r: (Option<Guide>, Option<Cue<string>>))
    ensures r.1.Some? <==> best.Some? && (prev.None? || prev.value.guide != best.value.guide)
    ensures r.1.Some? ==> r.1.value == Cue(best.value.guide, orgId) && r.0 == best
    ensures r.1.None? ==> r.0 == prev
  {
    if best.None? then (prev, None)
    else if prev.None? || prev.value.guide != best.value.guide then (best, Some(Cue(best.value.guide, orgId)))
    else (prev, None)
  }

  /** `g` is eligible and its key sorts at or before that of every eligible guide. */
  ghost predicate LeastEligible(g: Guide, guides: seq<Guide>, anchors: set<string>, forceShow: bool,
                                user: Option<User>)
  {
    && g in guides
    && Eligible(g, anchors, forceShow, user)
    && forall h :: h in guides && Eligible(h, anchors, forceShow, user) ==> LexLe(g.guide, h.guide)
  }

  /** `topGuide`: the first of the options, its steps pruned; null when there are none. */
  function TopGuide(sorted: seq<Guide>, anchors: set<string>, forceShow: bool, user: Option<User>)
    : (top: Option<Guide>)
    requires SortedBy(sorted, GuideKey)
    ensures top.None? <==> forall g :: g in sorted ==> !Eligible(g, anchors, forceShow, user)
    ensures top.Some? ==> exists g :: LeastEligible(g, sorted, anchors, forceShow, user)
                                      && top.value == Pruned(g, anchors)
  {
    var options := Options(sorted, anchors, forceShow, user);
    if |options| > 0 then
      HeadIsLeast(options, GuideKey);
      assert LeastEligible(options[0], sorted, anchors, forceShow, user);
      Some(Pruned(options[0], anchors))
    else
      None
  }

  /** `r` is the outcome of reselecting from `s`: when it completes, the step counter
      is 0, the shown guide is the pruned least-keyed eligible guide of `s` (null iff no
      guide is eligible), and a cue is emitted exactly for a non-null guide whose key
      differs from the previous guide's, which it then replaces. */
  ghost predicate Reselected(s: State, r: Result, user: Option<User>)
  {
    r.Done? ==>
      && r.state.currentStep == 0
      && (r.state.currentGuide.None? <==>
            forall g :: g in s.guides ==> !Eligible(g, s.anchors, s.forceShow, user))
      && (r.state.currentGuide.Some? ==>
            exists g :: LeastEligible(g, s.guides, s.anchors, s.forceShow, user)
                        && r.state.currentGuide.value == Pruned(g, s.anchors))
      && (r.cue.Some? <==>
            r.state.currentGuide.Some? &&
            (s.prevGuide.None? || s.prevGuide.value.guide != r.state.currentGuide.value.guide))
      && (r.cue.Some? ==> r.cue.value == Cue(r.state.currentGuide.value.guide, s.orgId)
                          && r.state.prevGuide == r.state.currentGuide)
      && (r.cue.None? ==> r.state.prevGuide == s.prevGuide)
  }

  /** `r` is an outcome `UpdateCurrentGuide` promises for `s`: the stored guides come back
      as a sorted permutation, anchors, organisation and force-show flag are kept, it
      throws exactly when some guide has no content (changing nothing else), and
      otherwise the selection is `Reselected`. The handlers that end by reselecting state
      their outcome through it. */
  ghost predicate Recomputed(s: State, r: Result, user: Option<User>)
  {
    && multiset(r.state.guides) == multiset(s.guides) && SortedBy(r.state.guides, GuideKey)
    && r.state.anchors == s.anchors && r.state.orgId == s.orgId && r.state.forceShow == s.forceShow
    && (r.Threw? <==> exists g :: g in s.guides && g.body.None?)
    && (r.Threw? ==> r.state == s.(guides := r.state.guides))
    && Reselected(s, r, user)
  }

  /** `updateCurrentGuide`. The sort is in place, so the stored guides come back sorted
      by key even when the filter then throws on a guide without content. */
  function UpdateCurrentGuide(s: State, user: Option<User>): (r: Result)
    ensures multiset(r.state.guides) == multiset(s.guides) && SortedBy(r.state.guides, GuideKey)
    ensures r.state.anchors == s.anchors && r.state.orgId == s.orgId && r.state.forceShow == s.forceShow
    ensures r.Threw? <==> exists g :: g in s.guides && g.body.None?
    ensures r.Threw? ==> r.state == s.(guides := r.state.guides)
    ensures Reselected(s, r, user)
  {
    var sorted := SortBy(s.guides, GuideKey);
    SameElements(sorted, s.guides);
    if exists g :: g in sorted && g.body.None? then
      Threw(s.(guides := sorted))
    else
      var top := TopGuide(sorted, s.anchors, s.forceShow, user);
      var updated := UpdatePrevGuide(s.prevGuide, top, s.orgId);
      Done(s.(guides := sorted, currentGuide := top, currentStep := 0, prevGuide := updated.0), updated.1)
  }

  /** Sequences with the same multiset have the same elements, hence the same least eligible guide. */
  lemma SameElements(a: seq<Guide>, b: seq<Guide>)
    requires multiset(a) == multiset(b)
    ensures forall g :: g in a <==> g in b
    ensures forall g, anchors, forceShow, user ::
              LeastEligible(g, a, anchors, forceShow, user) <==> LeastEligible(g, b, anchors, forceShow, user)
  {
    forall g
      ensures g in a <==> g in b
    {
      assert g in a <==> g in multiset(a);
      assert g in b <==> g in multiset(b);
    }
  }

  /** `onURLChange`: force-show exactly when the hash is `#assistant`, then reselect. */
  function OnURLChange(s: State, hash: string, user: Option<User>): (r: Result)
    ensures r.state.forceShow <==> hash == AssistantHash
    ensures Recomputed(s.(forceShow := hash == AssistantHash), r, user)
  {
    UpdateCurrentGuide(s.(forceShow := hash == AssistantHash), user)
  }

  /** `onSetActiveOrganization`: remember the organisation (absent for no data), then reselect. */
  function OnSetActiveOrganization(s: State, org: Option<string>, user: Option<User>): (r: Result)
    ensures r.state.orgId == org
    ensures r.Done? && r.cue.Some? ==> r.cue.value.organizationId == org
    ensures Recomputed(s.(orgId := org), r, user)
  {
    UpdateCurrentGuide(s.(orgId := org), user)
  }

  /** `onFetchSucceeded`. A falsy payload (`null`, `undefined`, an empty-string body) is
      ignored and is `None` here; an empty array is truthy, a payload like any other, and
      replaces the guides. */
  function OnFetchSucceeded(s: State, data: Option<seq<ServerGuide>>, content: seq<GuideContent>,
                            user: Option<User>): (r: Result)
    ensures data.None? ==> r == Done(s, None)
    ensures data.Some? ==> multiset(r.state.guides) == multiset(MergeAll(data.value, content))
    ensures data.Some? ==> (r.Threw? <==> exists sg :: sg in data.value &&
                                            forall c :: c in content ==> c.guide != sg.guide)
    ensures data.Some? && data.value == [] ==> r == Done(s.(guides := [], currentGuide := None, currentStep := 0), None)
    ensures data.Some? ==> Recomputed(s.(guides := MergeAll(data.value, content)), r, user)
  {
    match data
    case None => Done(s, None)
    case Some(d) =>
      var merged := MergeAll(d, content);
      assert forall g :: g in merged ==> exists sg :: sg in d && g == Merge(sg, content);
      assert forall sg :: sg in d ==> Merge(sg, content) in merged by {
        forall sg | sg in d
          ensures Merge(sg, content) in merged
        {
          var i :| 0 <= i < |d| && d[i] == sg;
          assert merged[i] == Merge(sg, content);
        }
      }
      UpdateCurrentGuide(s.(guides := merged), user)
  }

  /** Mark every guide whose key is `key` as seen. */
  function MarkSeen(guides: seq<Guide>, key: string): (r: seq<Guide>)
    ensures |r| == |guides|
    ensures forall i :: 0 <= i < |guides| ==>
              r[i].guide == guides[i].guide && r[i].body == guides[i].body
              && r[i].seen == (guides[i].seen || guides[i].guide == key)
  {
    seq(|guides|, i requires 0 <= i < |guides| =>
      if guides[i].guide == key then guides[i].(seen := true) else guides[i])
  }

  /** `onCloseGuide`. With no current guide the map callback throws on the first guide,
      before anything changes; with no guides at all it never runs. */
  function OnCloseGuide(s: State, user: Option<User>): (r: Result)
    ensures s.currentGuide.None? && |s.guides| > 0 ==> r == Threw(s)
    ensures s.currentGuide.None? && |s.guides| == 0 ==> Recomputed(s.(forceShow := false), r, user)
    ensures s.currentGuide.Some? ==> (r.Threw? <==> exists g :: g in s.guides && g.body.None?)
    ensures s.currentGuide.Some? ==>
              Recomputed(s.(guides := MarkSeen(s.guides, s.currentGuide.value.guide), forceShow := false), r, user)
  {
    match s.currentGuide
    case None =>
      if |s.guides| > 0 then Threw(s)
      else UpdateCurrentGuide(s.(forceShow := false), user)
    case Some(current) =>
      UpdateCurrentGuide(s.(guides := MarkSeen(s.guides, current.guide), forceShow := false), user)
  }

  /** `onNextStep`: advance the step counter by one and change nothing else. */
  function OnNextStep(s: State): (r: Result)
    ensures r.Done? && r.cue.None?
    ensures r.state.currentStep == s.currentStep + 1
    ensures r.state.(currentStep := s.currentStep) == s
  {
    Done(s.(currentStep := s.currentStep + 1), None)
  }

  /** `onRegisterAnchor`: add the anchor, then reselect. */
  function OnRegisterAnchor(s: State, target: string, user: Option<User>): (r: Result)
    ensures r.state.anchors == s.anchors + {target}
    ensures Recomputed(s.(anchors := s.anchors + {target}), r, user)
  {
    UpdateCurrentGuide(s.(anchors := s.anchors + {target}), user)
  }

  /** `onUnregisterAnchor`: remove the anchor, then reselect. */
  function OnUnregisterAnchor(s: State, target: string, user: Option<User>): (r: Result)
    ensures r.state.anchors == s.anchors - {target}
    ensures Recomputed(s.(anchors := s.anchors - {target}), r, user)
  {
    UpdateCurrentGuide(s.(anchors := s.anchors - {target}), user)
  }
}
