/** Properties of the typed guide store that relate its handlers to the selection rule
    and to one another. */
module GuideStoreFacts {
  import opened Outcomes
  import opened StringOrder
  import opened JsDates
  import opened GuideRules
  import opened GuideStore

  /** The shown guide has every required target mounted. */
  lemma SelectedHasRequiredTargets(s: State, user: Option<User>)
    ensures var r := UpdateCurrentGuide(s, user);
            r.Done? && r.state.currentGuide.Some? ==>
              var c := r.state.currentGuide.value;
              c.body.Some? && AllMounted(c.body.value.requiredTargets, s.anchors)
  {
  }

  /** Without force-show, neither a seen guide nor (for anyone but a superuser) a guide
      for a user who joined on or before 1 July 2019 is shown; the Discover sidebar guide
      is not shown to a non-superuser who joined on or after 6 February 2020, and with no
      user nothing is shown. */
  lemma UserRulesWithoutForceShow(s: State, user: Option<User>)
    requires !s.forceShow
    requires UpdateCurrentGuide(s, user).Done?
    ensures var c := UpdateCurrentGuide(s, user).state.currentGuide;
            && (c.Some? ==> !c.value.seen)
            && (c.Some? && !IsSuperuser(user) ==> JoinedAfter(user, AssistantThreshold))
            && (c.Some? && !IsSuperuser(user) && JoinedOnOrAfter(user, DiscoverDate)
                ==> c.value.guide != DiscoverSidebarKey)
            && (user.None? ==> c.None?)
  {
    var r := UpdateCurrentGuide(s, user);
    if r.state.currentGuide.Some? {
      var g :| LeastEligible(g, s.guides, s.anchors, s.forceShow, user)
               && r.state.currentGuide.value == Pruned(g, s.anchors);
      assert ShownToUser(g.guide, g.seen, user);
    }
  }

  /** With force-show on, who the user is makes no difference at all. */
  lemma ForceShowIgnoresUser(s: State, u1: Option<User>, u2: Option<User>)
    requires s.forceShow
    ensures UpdateCurrentGuide(s, u1) == UpdateCurrentGuide(s, u2)
  {
  }

  /** With force-show on, a seen guide is shown when it is the least guide with its
      targets mounted. */
  lemma ForceShowSelectsSeen(s: State, user: Option<User>, g: Guide)
    requires s.forceShow
    requires forall h :: h in s.guides ==> h.body.Some?
    requires g in s.guides && g.seen && RequiredMounted(g, s.anchors)
    requires forall h :: h in s.guides && RequiredMounted(h, s.anchors) ==> LexLe(g.guide, h.guide)
    ensures UpdateCurrentGuide(s, user).Done?
    ensures UpdateCurrentGuide(s, user).state.currentGuide.Some?
    ensures UpdateCurrentGuide(s, user).state.currentGuide.value.guide == g.guide
  {
    var r := UpdateCurrentGuide(s, user);
    var c :| LeastEligible(c, s.guides, s.anchors, s.forceShow, user) && r.state.currentGuide.value == Pruned(c, s.anchors);
    LexLeAntisymmetric(g.guide, c.guide);
  }

  /** Recomputing the selection from the state it just produced emits no second cue and
      shows a guide with the same key. */
  lemma RecomputeEmitsNoCue(s: State, user: Option<User>)
    requires UpdateCurrentGuide(s, user).Done?
    ensures var s1 := UpdateCurrentGuide(s, user).state;
            var r2 := UpdateCurrentGuide(s1, user);
            && r2.Done?
            && r2.cue.None?
            && (r2.state.currentGuide.None? <==> s1.currentGuide.None?)
            && (r2.state.currentGuide.Some? ==> r2.state.currentGuide.value.guide == s1.currentGuide.value.guide)
  {
    var s1 := UpdateCurrentGuide(s, user).state;
    var r2 := UpdateCurrentGuide(s1, user);
    SameElements(s1.guides, s.guides);
    if s1.currentGuide.Some? {
      var g1 :| LeastEligible(g1, s.guides, s.anchors, s.forceShow, user)
                && s1.currentGuide.value == Pruned(g1, s.anchors);
      assert r2.state.currentGuide.Some?;
      var g2 :| LeastEligible(g2, s1.guides, s1.anchors, s1.forceShow, user)
                && r2.state.currentGuide.value == Pruned(g2, s1.anchors);
      LexLeAntisymmetric(g1.guide, g2.guide);
      assert s1.prevGuide.Some? && s1.prevGuide.value.guide == g1.guide;
    }
  }

  /** Closing a guide never shows that same guide again straight away: it is now seen
      and force-show is off. */
  lemma CloseDoesNotReselect(s: State, user: Option<User>)
    requires s.currentGuide.Some?
    ensures var r := OnCloseGuide(s, user);
            r.Done? ==> r.state.currentGuide.None? || r.state.currentGuide.value.guide != s.currentGuide.value.guide
  {
    var key := s.currentGuide.value.guide;
    var s' := s.(guides := MarkSeen(s.guides, key), forceShow := false);
    MarkedNotEligible(s.guides, key, s.anchors, user);
    ReselectAvoids(s', UpdateCurrentGuide(s', user), user, key);
  }

  /** After marking, no guide with the closed key passes the user rules. */
  lemma MarkedNotEligible(guides: seq<Guide>, key: string, anchors: set<string>, user: Option<User>)
    ensures forall g :: g in MarkSeen(guides, key) && g.guide == key ==> !Eligible(g, anchors, false, user)
  {
    var marked := MarkSeen(guides, key);
    forall g | g in marked && g.guide == key
      ensures !Eligible(g, anchors, false, user)
    {
      var i :| 0 <= i < |marked| && marked[i] == g;
    }
  }

  /** A reselection never shows a key no guide is eligible under. */
  lemma ReselectAvoids(s: State, r: Result, user: Option<User>, key: string)
    requires Reselected(s, r, user)
    requires forall g :: g in s.guides && g.guide == key ==> !Eligible(g, s.anchors, s.forceShow, user)
    ensures r.Done? ==> r.state.currentGuide.None? || r.state.currentGuide.value.guide != key
  {
  }

  /** Registering an anchor that was not mounted and then unregistering it gives back the
      anchor set there was before; registering a mounted anchor changes nothing. */
  lemma RegisterThenUnregister(s: State, target: string, user: Option<User>)
    ensures target !in s.anchors ==>
              OnUnregisterAnchor(OnRegisterAnchor(s, target, user).state, target, user).state.anchors == s.anchors
    ensures target in s.anchors ==> OnRegisterAnchor(s, target, user).state.anchors == s.anchors
  {
    var a1 := OnRegisterAnchor(s, target, user).state.anchors;
    var a2 := OnUnregisterAnchor(OnRegisterAnchor(s, target, user).state, target, user).state.anchors;
    AnchorAddRemove(s.anchors, target, a1, a2);
  }

  /** How far the user had stepped through a guide has no influence on the next selection
      once it completes normally. */
  lemma NextStepForgottenOnReselect(s: State, user: Option<User>)
    ensures UpdateCurrentGuide(OnNextStep(s).state, user).Done? <==> UpdateCurrentGuide(s, user).Done?
    ensures UpdateCurrentGuide(s, user).Done? ==>
              UpdateCurrentGuide(OnNextStep(s).state, user) == UpdateCurrentGuide(s, user)
  {
    var s1 := OnNextStep(s).state;
    assert s1.guides == s.guides && s1.anchors == s.anchors && s1.forceShow == s.forceShow;
    assert s1 == s.(currentStep := s.currentStep + 1);
  }
}
