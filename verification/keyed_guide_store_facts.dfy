/** Properties of the keyed guide store: its state invariant, the selection rules, and
    how its handlers relate to one another. */
module KeyedGuideStoreFacts {
  import opened Outcomes
  import opened JsDates
  import opened GuideRules
  import opened JsObjects
  import opened KeyedGuideStore

  /** The shown guide is one of the stored guides. */
  predicate Valid(s: State)
  {
    s.currentGuide.Some? ==> s.currentGuide.value.key in Keys(s.guides)
  }

  /** The initial state is valid and every handler keeps the store valid. */
  lemma HandlersPreserveValid(s: State, user: Option<User>, target: string, hash: string,
                              org: Option<string>, data: Option<Obj<ServerEntry>>, content: map<string, Content>)
    requires Valid(s)
    ensures Valid(Initial)
    ensures Valid(UpdateCurrentGuide(s, user).state)
    ensures Valid(OnFetchSucceeded(s, data, content, user).state)
    ensures Valid(OnCloseGuide(s, user).state)
    ensures Valid(OnNextStep(s).state)
    ensures Valid(OnRegisterAnchor(s, target, user).state)
    ensures Valid(OnUnregisterAnchor(s, target, user).state)
    ensures Valid(OnURLChange(s, hash, user).state)
    ensures Valid(OnSetActiveOrganization(s, org, user).state)
  {
    assert forall t: State :: Valid(UpdateCurrentGuide(t, user).state);
  }

  /** In a valid state, closing the shown guide never throws. */
  lemma CloseNeverThrowsWhenShown(s: State, user: Option<User>)
    requires Valid(s) && s.currentGuide.Some?
    ensures OnCloseGuide(s, user).Done?
  {
  }

  /** The shown guide has every required target mounted and carries its own key's data. */
  lemma SelectedHasRequiredTargets(s: State, user: Option<User>)
    ensures var c := UpdateCurrentGuide(s, user).state.currentGuide;
            c.Some? ==>
              && c.value.key in Keys(s.guides)
              && AllMounted(c.value.guide.requiredTargets, s.anchors)
              && c.value.guide.id == Get(s.guides, c.value.key).value.id
  {
  }

  /** Without force-show: no seen guide; for non-superusers only users who joined after
      1 July 2019, never the Discover sidebar guide for those who joined on or after
      6 February 2020; and nothing at all without a user. */
  lemma UserRulesWithoutForceShow(s: State, user: Option<User>)
    requires !s.forceShow
    ensures var c := UpdateCurrentGuide(s, user).state.currentGuide;
            && (c.Some? ==> !c.value.guide.seen)
            && (c.Some? && !IsSuperuser(user) ==> JoinedAfter(user, AssistantThreshold))
            && (c.Some? && !IsSuperuser(user) && JoinedOnOrAfter(user, DiscoverDate)
                ==> c.value.key != DiscoverSidebarKey)
            && (user.None? ==> c.None?)
  {
    var c := UpdateCurrentGuide(s, user).state.currentGuide;
    if c.Some? {
      assert KeyShown(s.guides, c.value.key, user);
    }
  }

  /** With force-show on, the seen, superuser and join-date rules are skipped entirely. */
  lemma ForceShowIgnoresUser(s: State, u1: Option<User>, u2: Option<User>)
    requires s.forceShow
    ensures UpdateCurrentGuide(s, u1) == UpdateCurrentGuide(s, u2)
  {
  }

  /** Recomputing from the state just produced shows the same guide and records no cue. */
  lemma RecomputeEmitsNoCue(s: State, user: Option<User>)
    ensures var s1 := UpdateCurrentGuide(s, user).state;
            var r2 := UpdateCurrentGuide(s1, user);
            r2.cue.None? && r2.state.currentGuide == s1.currentGuide
  {
  }

  /** Closing a guide does not show it again straight away. */
  lemma CloseDoesNotReselect(s: State, user: Option<User>)
    requires s.currentGuide.Some?
    ensures var c := OnCloseGuide(s, user).state.currentGuide;
            OnCloseGuide(s, user).Done? ==> c.None? || c.value.key != s.currentGuide.value.key
  {
    var r := OnCloseGuide(s, user);
    if r.Done? && r.state.currentGuide.Some? {
      var key := s.currentGuide.value.key;
      assert KeyShown(r.state.guides, r.state.currentGuide.value.key, user);
      assert Get(r.state.guides, key).value.seen;
    }
  }

  /** Registering an anchor that was not mounted and then unregistering it restores the
      anchor set; registering a mounted anchor changes nothing. */
  lemma RegisterThenUnregister(s: State, target: string, user: Option<User>)
    ensures target !in s.anchors ==>
              OnUnregisterAnchor(OnRegisterAnchor(s, target, user).state, target, user).state.anchors == s.anchors
    ensures target in s.anchors ==> OnRegisterAnchor(s, target, user).state.anchors == s.anchors
  {
  }

  /** The step counter has no influence on the next selection. */
  lemma NextStepForgottenOnReselect(s: State, user: Option<User>)
    ensures UpdateCurrentGuide(OnNextStep(s).state, user) == UpdateCurrentGuide(s, user)
  {
    assert OnNextStep(s).state == s.(currentStep := s.currentStep + 1);
  }
}
