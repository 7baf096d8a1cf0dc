# Assistant guide selection

A model of the logic that decides which onboarding tooltip guide (an "assistant guide")
the web front end shows, and of the backend registry of guide ids.

- The **typed store** (`guideStore.tsx`) holds guides as an array of records keyed by
  their `guide` string, the set of mounted anchors, the current guide and step, the
  force-show flag (URL hash `#assistant`) and the previously cued guide.
- The **keyed store** (`guideStore.jsx`) runs the same machine over an object keyed by
  guide key, drops server keys that have no content when merging, closes by key, and
  de-duplicates cues by guide `id`.
- The **registry** (`guides.py`) is the `AssistantGuide` enumeration (ids 1, 3 and 4) and
  the `ACTIVE_GUIDES` list.

Every handler is a pure function from the store state, plus the outside inputs it reads,
to an `Outcome`: either `Done(state, cue)`, the new state and the analytics cue it
emitted, or `Threw(state)`, a handler that raised a TypeError, with the mutations it made
before the throw. The outside inputs are parameters: the signed-in user (with
`isSuperuser` and an optional join day), the URL hash, and the guide content table.
Dates are day numbers counted from 1 January 1970. A missing user or join date makes
every date comparison false, as an Invalid Date does.

Behaviour of the code that a reader might not expect, modelled as written:

- `onFetchSucceeded` ignores a falsy payload (`null`, `undefined`, an empty-string
  body); such a payload is `None` in the model. An empty array or object is truthy, so
  it replaces the guides and reselects like any other payload.
- In the typed store, a server guide with no matching content has no `requiredTargets`.
  `updateCurrentGuide` then throws in its filter. The sort runs in place before that, so
  the stored guides are left sorted.
- In the typed store, `onCloseGuide` with no current guide throws as soon as it looks at
  the first guide. With no guides at all it does not throw.
- In the keyed store, `onCloseGuide` throws when there is no current guide or its key is
  not stored. `KeyedGuideStoreFacts.HandlersPreserveValid` shows the second case cannot
  be reached.

## Model

| member | source | states |
|---|---|---|
| StringOrder.LexLeReflexive | src/sentry/static/sentry/app/stores/guideStore.tsx:156 | every key sorts at or before itself |
| StringOrder.LexLeTotal | src/sentry/static/sentry/app/stores/guideStore.tsx:156 | any two keys are comparable, so the sort is well defined |
| StringOrder.LexLeAntisymmetric | src/sentry/static/sentry/app/stores/guideStore.jsx:149 | two keys each sorting at or before the other are equal, so the least eligible key is unique |
| StringOrder.LexLeTransitive | src/sentry/static/sentry/app/stores/guideStore.jsx:149 | sorting order is transitive |
| Seqs.Filter | src/sentry/static/sentry/app/stores/guideStore.tsx:157 | `filter` keeps exactly the elements satisfying the predicate, each as often as it occurred |
| Seqs.FilterConcat | src/sentry/static/sentry/app/stores/guideStore.tsx:157 | `filter` distributes over concatenation, so it keeps the original order |
| Seqs.FilterSorted | src/sentry/static/sentry/app/stores/guideStore.tsx:155-157 | filtering a sorted array leaves it sorted |
| Seqs.HeadIsLeast | src/sentry/static/sentry/app/stores/guideStore.tsx:179-182 | the first element of a sorted array has the least key of all its elements |
| Seqs.Insert | src/sentry/static/sentry/app/stores/guideStore.tsx:156 | inserting into a sorted array keeps it sorted and adds exactly the one element |
| Seqs.SortBy | src/sentry/static/sentry/app/stores/guideStore.tsx:155-156 | the sort result is ordered by key and is a permutation of its input; its stability is `Seqs.SortByStable` |
| Seqs.InsertStable | src/sentry/static/sentry/app/stores/guideStore.tsx:156 | an inserted element lands ahead of every element with the same key, and the others keep their order |
| Seqs.SortByStable | src/sentry/static/sentry/app/stores/guideStore.tsx:156 | the sort is stable, as `Array.prototype.sort` is: the elements with any one key come out in their input order |
| JsDates.ThresholdDays | src/sentry/static/sentry/app/stores/guideStore.tsx:161-162 | `new Date(2019, 6, 1)` is 1 July 2019 (day 18078) and `new Date(2020, 1, 6)` is 6 February 2020 (day 18298): months count from 0 |
| GuideRules.ShownToUser | src/sentry/static/sentry/app/stores/guideStore.tsx:165-176 | a seen guide is never shown; a superuser sees every unseen guide; otherwise a guide needs a join date after 1 July 2019, the Discover sidebar guide also one before 6 February 2020; no user sees nothing; and the converse |
| GuideRules.DiscoverSidebarCases | tests/js/spec/stores/guideStore.spec.jsx:95-144 | the Discover sidebar guide is hidden without a user, shown to a superuser without a join date and to a user who joined 1 January 2020, hidden from one who joined 22 February 2020, and hidden once seen |
| GuideRules.MountedSteps | src/sentry/static/sentry/app/stores/guideStore.tsx:183-185 | the kept steps are exactly the steps whose target is non-empty and mounted |
| GuideRules.MountedStepsExact | src/sentry/static/sentry/app/stores/guideStore.tsx:183-185 | step pruning keeps one step iff it is mounted and distributes over concatenation, so order is preserved |
| GuideRules.AnchorAddRemove | src/sentry/static/sentry/app/stores/guideStore.tsx:112-120 | the anchor set has set semantics: adding a present anchor is a no-op, removing a fresh one restores the set |
| GuideStore.FindContent | src/sentry/static/sentry/app/stores/guideStore.tsx:89 | `find` returns the first content whose `guide` matches, and nothing iff none matches |
| GuideStore.Merge | src/sentry/static/sentry/app/stores/guideStore.tsx:87-90 | a merged guide keeps the server key and seen flag and takes targets and steps from the first content whose key matches; it has none iff no content matches |
| GuideStore.Options | src/sentry/static/sentry/app/stores/guideStore.tsx:155-177 | the options are sorted and are exactly the guides with mounted required targets that, unless force-shown, pass the user rules, each kept as often as it occurs |
| GuideStore.Pruned | src/sentry/static/sentry/app/stores/guideStore.tsx:181-186 | the shown guide keeps key, seen flag and required targets, and exactly its mounted steps in their original order |
| GuideStore.TopGuide | src/sentry/static/sentry/app/stores/guideStore.tsx:179-187 | the top guide is the pruned least-keyed eligible guide, and null iff no guide is eligible |
| GuideStore.UpdatePrevGuide | src/sentry/static/sentry/app/stores/guideStore.tsx:132-142 | a cue is emitted iff the best guide is non-null and differs by key from the previous one; then it becomes the previous guide, otherwise that stays |
| GuideStore.UpdateCurrentGuide | src/sentry/static/sentry/app/stores/guideStore.tsx:152-193 | stored guides become a sorted permutation; it throws iff some guide lacks content; otherwise the step is 0, the shown guide is the pruned least-keyed eligible guide (null iff none), and the cue rule holds |
| GuideStore.OnURLChange | src/sentry/static/sentry/app/stores/guideStore.tsx:67-70 | force-show is on exactly for the hash `#assistant`; anchors and organisation are kept, the guides come back as a sorted permutation; it throws iff some guide lacks content, otherwise the selection rule is applied with the new flag |
| GuideStore.OnSetActiveOrganization | src/sentry/static/sentry/app/stores/guideStore.tsx:72-75 | the organisation is stored; anchors and force-show flag are kept, the guides come back as a sorted permutation; it throws iff some guide lacks content, otherwise the selection rule is applied and any cue carries the organisation |
| GuideStore.OnFetchSucceeded | src/sentry/static/sentry/app/stores/guideStore.tsx:77-94 | a falsy payload leaves the state unchanged; otherwise the guides become a sorted permutation of the merged payload, anchors, organisation and force-show are kept, it throws iff some server guide has no content, an empty array clears the selection, and the selection rule is applied to the merged guides |
| GuideStore.MarkSeen | src/sentry/static/sentry/app/stores/guideStore.tsx:98-102 | exactly the guides whose key equals the closed one become seen; nothing else changes |
| GuideStore.OnCloseGuide | src/sentry/static/sentry/app/stores/guideStore.tsx:96-105 | with no current guide and some guides it throws without change; with neither, or with a current guide, force-show ends, the (marked) guides come back as a sorted permutation, anchors and organisation are kept, it throws iff some guide lacks content, and otherwise the selection rule is applied |
| GuideStore.OnNextStep | src/sentry/static/sentry/app/stores/guideStore.tsx:107-110 | the step goes up by exactly one, nothing else changes, no cue |
| GuideStore.OnRegisterAnchor | src/sentry/static/sentry/app/stores/guideStore.tsx:112-115 | the anchor is added; organisation and force-show are kept, the guides come back as a sorted permutation; it throws iff some guide lacks content, otherwise the selection rule is applied over the new set |
| GuideStore.OnUnregisterAnchor | src/sentry/static/sentry/app/stores/guideStore.tsx:117-120 | the anchor is removed; organisation and force-show are kept, the guides come back as a sorted permutation; it throws iff some guide lacks content, otherwise the selection rule is applied over the new set |
| GuideStoreFacts.SelectedHasRequiredTargets | src/sentry/static/sentry/app/stores/guideStore.tsx:155-157 | the shown guide has every required target mounted |
| GuideStoreFacts.UserRulesWithoutForceShow | src/sentry/static/sentry/app/stores/guideStore.tsx:159-177 | without force-show: never a seen guide; for non-superusers only users joined after 1 July 2019 and no Discover sidebar guide for those joined on or after 6 February 2020; nothing without a user |
| GuideStoreFacts.ForceShowIgnoresUser | src/sentry/static/sentry/app/stores/guideStore.tsx:159 | with force-show the user rules are skipped: the result does not depend on the user |
| GuideStoreFacts.ForceShowSelectsSeen | tests/js/spec/stores/guideStore.spec.jsx:47-59 | with force-show, a seen guide whose key is least among the guides with mounted targets is the one shown |
| GuideStoreFacts.RecomputeEmitsNoCue | tests/js/spec/stores/guideStore.spec.jsx:73-81 | recomputing from the state just produced shows a guide with the same key and emits no second cue |
| GuideStoreFacts.CloseDoesNotReselect | tests/js/spec/stores/guideStore.spec.jsx:39-61 | closing the shown guide never shows a guide with that key straight after |
| GuideStoreFacts.RegisterThenUnregister | src/sentry/static/sentry/app/stores/guideStore.tsx:112-120 | registering a new anchor and unregistering it restores the anchor set |
| GuideStoreFacts.NextStepForgottenOnReselect | src/sentry/static/sentry/app/stores/guideStore.tsx:107-110 | the step counter has no influence on a reselection that completes |
| JsObjects.Get | src/sentry/static/sentry/app/stores/guideStore.jsx:78 | a lookup is undefined iff the key is absent, and otherwise returns that key's entry |
| JsObjects.GetEntry | src/sentry/static/sentry/app/stores/guideStore.jsx:177 | in an object with distinct keys every entry is what its key looks up |
| JsObjects.Update | src/sentry/static/sentry/app/stores/guideStore.jsx:78 | assigning to a present key changes that key's value only and keeps the key order |
| KeyedGuideStore.WithContent | src/sentry/static/sentry/app/stores/guideStore.jsx:111-116 | the merged keys are exactly the data keys present in the content table, each the data entry merged with its content |
| KeyedGuideStore.AvailableGuides | src/sentry/static/sentry/app/stores/guideStore.jsx:148-170 | the available keys are sorted and exactly the keys with mounted required targets that, unless force-shown, pass the user rules, each kept as often as it occurs |
| KeyedGuideStore.SortedKeys | src/sentry/static/sentry/app/stores/guideStore.jsx:148-149 | the sorted keys are ordered and are a permutation of the object's keys |
| KeyedGuideStore.Pruned | src/sentry/static/sentry/app/stores/guideStore.jsx:175-179 | the shown guide keeps id, seen flag and required targets, and exactly its mounted steps in their original order |
| KeyedGuideStore.BestGuide | src/sentry/static/sentry/app/stores/guideStore.jsx:172-180 | the best guide carries the least eligible key in string order with that key's pruned guide, and is null iff no key is eligible |
| KeyedGuideStore.UpdatePrevGuide | src/sentry/static/sentry/app/stores/guideStore.jsx:125-135 | a cue is recorded iff the best guide is non-null and its id differs from the previous guide's |
| KeyedGuideStore.UpdateCurrentGuide | src/sentry/static/sentry/app/stores/guideStore.jsx:145-186 | it never throws; guides, anchors, organisation and force-show are unchanged, the step is reset to 0, the best guide is shown and a cue is recorded iff its id differs from the previous guide's |
| KeyedGuideStore.UpdateGuidesWithContent | src/sentry/static/sentry/app/stores/guideStore.jsx:108-123 | after merging the guide keys are exactly the data keys with content, each entry data overridden by content; anchors, organisation and force-show are kept, and the best merged guide is shown from step 0 with the id cue rule |
| KeyedGuideStore.OnFetchSucceeded | src/sentry/static/sentry/app/stores/guideStore.jsx:67-74 | a falsy payload changes nothing; any object payload, even an empty one, is merged, the other fields are kept, and the best merged guide is shown from step 0 with the id cue rule |
| KeyedGuideStore.OnCloseGuide | src/sentry/static/sentry/app/stores/guideStore.jsx:76-81 | without a current guide, or with its key gone, it throws unchanged; otherwise only that key's entry becomes seen, keys, anchors and organisation stay, force-show ends, and the best guide is reselected with the id cue rule |
| KeyedGuideStore.OnNextStep | src/sentry/static/sentry/app/stores/guideStore.jsx:83-86 | the step goes up by exactly one, nothing else changes, no cue |
| KeyedGuideStore.OnRegisterAnchor | src/sentry/static/sentry/app/stores/guideStore.jsx:88-91 | the anchor is added, guides, organisation and force-show are kept, and the best guide over the new set is shown from step 0 with the id cue rule |
| KeyedGuideStore.OnUnregisterAnchor | src/sentry/static/sentry/app/stores/guideStore.jsx:93-96 | the anchor is removed, guides, organisation and force-show are kept, and the best guide over the new set is shown from step 0 with the id cue rule |
| KeyedGuideStore.OnURLChange | src/sentry/static/sentry/app/stores/guideStore.jsx:57-60 | force-show is on exactly for the hash `#assistant`, guides, anchors and organisation are kept, and the best guide under that flag is shown from step 0 with the id cue rule |
| KeyedGuideStore.OnSetActiveOrganization | src/sentry/static/sentry/app/stores/guideStore.jsx:62-65 | the organisation is stored, guides, anchors and force-show are kept, the best guide is shown from step 0, and a cue, carrying the organisation, is recorded iff the guide's id is new |
| KeyedGuideStoreFacts.HandlersPreserveValid | src/sentry/static/sentry/app/stores/guideStore.jsx:12-186 | the shown guide's key is always a stored key: true initially and kept by every handler |
| KeyedGuideStoreFacts.CloseNeverThrowsWhenShown | src/sentry/static/sentry/app/stores/guideStore.jsx:76-81 | in a reachable state, closing a shown guide does not throw |
| KeyedGuideStoreFacts.SelectedHasRequiredTargets | src/sentry/static/sentry/app/stores/guideStore.jsx:148-150 | the shown guide is stored under its key, has every required target mounted and that key's id |
| KeyedGuideStoreFacts.UserRulesWithoutForceShow | src/sentry/static/sentry/app/stores/guideStore.jsx:152-170 | without force-show the seen, superuser and join-date rules hold of the shown guide |
| KeyedGuideStoreFacts.ForceShowIgnoresUser | src/sentry/static/sentry/app/stores/guideStore.jsx:152 | with force-show the user rules are skipped entirely |
| KeyedGuideStoreFacts.RecomputeEmitsNoCue | src/sentry/static/sentry/app/stores/guideStore.jsx:125-135 | recomputing shows the same guide and records no second cue |
| KeyedGuideStoreFacts.CloseDoesNotReselect | src/sentry/static/sentry/app/stores/guideStore.jsx:76-80 | closing the shown guide never shows that key straight after |
| KeyedGuideStoreFacts.RegisterThenUnregister | src/sentry/static/sentry/app/stores/guideStore.jsx:88-96 | registering a new anchor and unregistering it restores the anchor set |
| KeyedGuideStoreFacts.NextStepForgottenOnReselect | src/sentry/static/sentry/app/stores/guideStore.jsx:83-86 | the step counter has no influence on the next selection |
| AssistantGuides.Id | src/sentry/assistant/guides.py:6-9 | every member's value is 1, 3 or 4 |
| AssistantGuides.FromId | src/sentry/assistant/guides.py:6-9 | lookup by value returns the member with that value, and nothing iff the value is not 1, 3 or 4 |
| AssistantGuides.FromName | src/sentry/assistant/guides.py:6-9 | lookup by name returns the member with that name |
| AssistantGuides.RegistryFacts | src/sentry/assistant/guides.py:6-16 | ids are exactly 1, 3, 4 and pairwise distinct; 2 finds nothing; lookups round-trip; the active list is ISSUE_DETAILS, ISSUE_STREAM, DISCOVER_SIDEBAR in that order, without duplicates, every entry a member |

## Left out

- Reflux wiring (`listenTo`, `trigger`), `window.addEventListener` and `browserHistory.listen`: the handlers are functions and the hash is an argument.
- `ConfigStore.get('user')`: the user is a parameter of every handler that reselects.
- `getGuidesContent` and `getGuideContent`: their bodies are not part of this model, so the content table is a parameter; its records carry only required targets and steps.
- `trackAnalyticsEvent`: the cue is an output value instead of a call, and its fixed event key and name strings are not modelled.
- `Sentry.captureException` and the try/catch of `updateGuidesWithContent`: with the content as a well-formed parameter nothing inside the try block throws.
- `localeCompare` and the default array sort: both are modelled as plain lexicographic order on characters. Locale rules are not modelled, nor the UTF-16 code-unit order that differs from code-point order for characters outside the Basic Multilingual Plane.
- Time of day: join dates are whole days. A `null` join date means the epoch in JavaScript; that is before both thresholds, so it behaves like an absent one.
- The keyed store's `key in content` also finds inherited properties such as `toString`; the content table here holds only its own keys.
- Server fields other than the key, id and seen flag, and step descriptions that are objects rather than text.
- GuideStore.UpdateCurrentGuide: states that the shown guide is a least-keyed eligible guide, not which of several guides sharing one key is picked (the sort is stable, `Seqs.SortByStable`, so it is the first in array order).
- GuideStore.TopGuide: states that the top guide is a least-keyed eligible guide of its sorted input, not that it is the first such guide in that input.
- The action creators (`actionCreators/guides.tsx`, `actionCreators/guides.jsx`): HTTP requests and analytics wrappers, not part of this model.
- `views/releasesV2/list/mock.ts`: random mock data, not part of this model.
