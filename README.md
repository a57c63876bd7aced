# Eden front-end onboarding logic, modelled in Dafny

This project models the decision and data logic inside three React
containers of the Eden front-end. The rendering is not modelled.

- **FillUserProfileContainer**, the profile-onboarding wizard. It has four
  steps in a fixed order, ROLE, BIO, SOCIALS and EXP. The model covers the
  Prev/Next/Submit buttons each step shows and where Prev and Next lead. It
  covers when Submit is disabled and when the red warning shows, and the three
  handlers that each replace one field of the form state. It covers the
  social-link normaliser that runs when the profile loads: it removes each
  platform's URL prefix with JavaScript `replace`, which removes only the
  first occurrence. It covers the SOCIALS edit handler, which puts the prefix
  back and either updates the platform's entries in place or appends one new
  entry. Finally it covers the `fields` record that Submit sends to the
  member-update mutation.
- **ShortlistContainer**: two things. First, the skill ids sent to the
  matching query. Second, the matched members that remain after removing
  those whose `_id` belongs to a current team member.
- **CreateProjectViews7**: the one-action reducer over a state keyed by
  field names, and its initial state. The edit handler's dispatch is
  commented out; the model covers that handler too. It also covers the three
  "battery" increments, each guarded by a threshold.

A JavaScript `undefined` or `null` object becomes `None` of an `Option`
(`Wrappers`). Where the source compares ids with `===`, which tells `null`
from `undefined`, the shortlist uses a three-way id type (`Shortlist.JsId`). Truthiness of
strings and `String.prototype.replace` with a string pattern are in `JsText`.
The wizard's form state and its setters are in `ProfileState`. The wizard's
steps and submit gate are in `ProfileSteps`. The links are in `SocialLinks`
and the payload is in `ProfileSubmit`. Then there are `Shortlist` and
`CreateProjectView`.

The load-time normaliser and the SOCIALS edit handler are written as
methods, `NormaliseLink` and `UpsertLink`. Like the source, they reassign local
variables through the four per-platform `if`s. Each is proved equal to a
function built on one platform table (`SocialLinks.Platform`). The lemmas
are stated about those functions.

Points where the code's behaviour is easy to misread:

- Submit is disabled only when the percentage is below 50 and no entry has
  a title, so either condition alone enables it: (49, one titled entry) and
  (50, no entries) are both enabled (`ProfileSteps.SubmitGateExamples`).
- Stripping a stored url gives back the handle for every handle, even one
  that itself contains the prefix: `replace` removes the first occurrence,
  and the prefix put in front is that occurrence
  (`SocialLinks.EditUrlOfStorageUrl`).
- There is no Next at EXP and no Prev at ROLE: those buttons are not
  rendered. The click handlers also leave a step outside the four
  unchanged. `ProfileSteps.AfterNext` and `AfterPrev` state both facts.
- Link names are strings, not a closed set of platforms: a link with an
  unknown name passes through unchanged. Nothing enforces one entry per
  platform, but an edit keeps a list that has at most one entry per
  platform that way (`SocialLinks.UpsertKeepsOneEntryPerName`). When a
  platform has several entries, an edit updates all of them.

Some properties shown by the model follow from the code as written:

- A profile that is loaded and then submitted with no edit on the SOCIALS
  step sends bare handles, not full URLs (`LoadedLinksSubmittedAsHandles`).
- `replace` removes a prefix even from the middle of a url
  (`JsText.ReplaceInnerOccurrence`).
- A member whose `_id` is undefined (not null) is filtered out of the
  shortlist as soon as one team entry has no `memberInfo`, because
  `undefined === undefined` (`Shortlist.UndefinedIdsMatch`). A member whose
  `_id` is null is kept against such an entry, because `undefined === null`
  is false (`Shortlist.NullIdNotMatchedByMissingInfo`); it is dropped only
  by a team member whose `memberInfo._id` is null (`Shortlist.NullIdsMatch`).
- The battery can reach 108 from a level of 98 (`CreateProjectView.BatteryAtMost108`); from a multiple of 10 the role rule stops at 100. The level the parent passes in is not part of this code.
- A typed edit never reaches the project-view reducer. The action type in
  the commented-out dispatch ("HANDLE INPUT TEXT") is also not the one the
  reducer handles.

## Model

| member | source | states |
|---|---|---|
| `ProfileState.SetRole` | packages/ui/src/containers/FillUserProfileContainer/FillUserProfileContainer.tsx:85-90 | `memberRole` becomes the selected role and the other four fields are unchanged |
| `ProfileState.SetBio` | packages/ui/src/containers/FillUserProfileContainer/FillUserProfileContainer.tsx:92-97 | `bio` becomes the typed text and the other four fields are unchanged |
| `ProfileState.SetBackground` | packages/ui/src/containers/FillUserProfileContainer/FillUserProfileContainer.tsx:99-104 | `background` becomes the edited list and the other four fields are unchanged |
| `ProfileState.SettersCommute` | packages/ui/src/containers/FillUserProfileContainer/FillUserProfileContainer.tsx:85-104 | any two of the three setters give the same state in either order |
| `ProfileState.SettersLastWriteWins` | packages/ui/src/containers/FillUserProfileContainer/FillUserProfileContainer.tsx:85-104 | a second use of the same setter overrides the first |
| `ProfileSteps.ButtonsFollowOrder` | packages/ui/src/containers/FillUserProfileContainer/FillUserProfileContainer.tsx:348-383 | Prev shows at every step but the first, Next at every step but the last, Submit only at the last; exactly one of Next and Submit shows at any step |
| `ProfileSteps.AfterNext` | packages/ui/src/containers/FillUserProfileContainer/FillUserProfileContainer.tsx:359-369 | Next moves each step but EXP one place forward in the order; at EXP or an unknown step it changes nothing |
| `ProfileSteps.AfterPrev` | packages/ui/src/containers/FillUserProfileContainer/FillUserProfileContainer.tsx:348-357 | Prev moves each step but ROLE one place back in the order; at ROLE or an unknown step it changes nothing |
| `ProfileSteps.PrevUndoesNext` | packages/ui/src/containers/FillUserProfileContainer/FillUserProfileContainer.tsx:348-369 | wherever Next is offered, Prev after Next returns to the starting step |
| `ProfileSteps.NextUndoesPrev` | packages/ui/src/containers/FillUserProfileContainer/FillUserProfileContainer.tsx:348-369 | wherever Prev is offered, Next after Prev returns to the starting step |
| `ProfileSteps.NextWalksAllSteps` | packages/ui/src/containers/FillUserProfileContainer/FillUserProfileContainer.tsx:363-365 | from ROLE, Next leads to BIO, then SOCIALS, then EXP |
| `ProfileSteps.AnyTitled` | packages/ui/src/containers/FillUserProfileContainer/FillUserProfileContainer.tsx:377 | `background.some(bg => !!bg.title)` is true exactly when some entry has a defined, non-empty title |
| `ProfileSteps.SubmitDisabled` | packages/ui/src/containers/FillUserProfileContainer/FillUserProfileContainer.tsx:375-378 | Submit is disabled exactly when the percentage is below 50 and no entry has a title; it is enabled exactly when the percentage is at least 50 or some entry has a title |
| `ProfileSteps.WarningIffSubmitBlocked` | packages/ui/src/containers/FillUserProfileContainer/FillUserProfileContainer.tsx:341-347 | the red warning shows exactly when Submit is offered (step EXP) and disabled |
| `ProfileSteps.SubmitGateExamples` | packages/ui/src/containers/FillUserProfileContainer/FillUserProfileContainer.tsx:375-378 | (49, titled entry) and (50, no entry) are enabled, (49, no entry) is disabled, and entries with empty or missing titles do not enable Submit |
| `JsText.FirstIndexOf` | packages/ui/src/containers/FillUserProfileContainer/FillUserProfileContainer.tsx:116 | the index found is an occurrence of the pattern with no earlier one; no index means the pattern does not occur |
| `JsText.ReplaceFirst` | packages/ui/src/containers/FillUserProfileContainer/FillUserProfileContainer.tsx:116 | `replace` with a string pattern replaces the first occurrence, wherever it is, and leaves a string without an occurrence unchanged |
| `JsText.ReplaceLeadingOccurrence` | packages/ui/src/containers/FillUserProfileContainer/FillUserProfileContainer.tsx:116 | removing a pattern from pattern + rest gives back the rest, whatever the rest contains |
| `JsText.ReplaceInnerOccurrence` | packages/ui/src/containers/FillUserProfileContainer/FillUserProfileContainer.tsx:131 | `"xhttps://t.me/y".replace("https://t.me/", "")` is `"xy"`: an occurrence in the middle is removed too |
| `SocialLinks.PlatformNamed` | packages/ui/src/containers/FillUserProfileContainer/FillUserProfileContainer.tsx:113-131 | a name maps to the platform that has that name; a name matching none of the four maps to nothing |
| `SocialLinks.EditUrlOfStorageUrl` | packages/ui/src/containers/FillUserProfileContainer/FillUserProfileContainer.tsx:110-135 | stripping a stored url (prefix + handle) gives the handle back, for every handle and every name |
| `SocialLinks.NormaliseLink` | packages/ui/src/containers/FillUserProfileContainer/FillUserProfileContainer.tsx:111-134 | the four sequential `if`s with literal prefixes give the same link as the table-driven normaliser |
| `SocialLinks.NormalisedLinksShape` | packages/ui/src/containers/FillUserProfileContainer/FillUserProfileContainer.tsx:110-135 | normalising keeps length, order, names and typenames; entries with unknown names or undefined urls stay the same; a known platform's url loses the first occurrence of its prefix |
| `SocialLinks.OnProfileLoaded` | packages/ui/src/containers/FillUserProfileContainer/FillUserProfileContainer.tsx:106-137 | without current-user links the state is unchanged; with them, only `links` changes, to their normalised form (undefined stays undefined) |
| `SocialLinks.UpsertLink` | packages/ui/src/containers/FillUserProfileContainer/FillUserProfileContainer.tsx:273-320 | the handler's copy, the pass through the four prefix `if`s, and the push give exactly the upsert specification |
| `SocialLinks.UpsertUpdatesInPlace` | packages/ui/src/containers/FillUserProfileContainer/FillUserProfileContainer.tsx:279-296 | if the platform has an entry, every entry with that name gets url = prefix + value, all other entries are unchanged, and length and order are kept |
| `SocialLinks.UpsertAppends` | packages/ui/src/containers/FillUserProfileContainer/FillUserProfileContainer.tsx:297-315 | if the platform has no entry (or there are no links), the result is the earlier links followed by exactly one new `linkType` entry with the prefixed url |
| `SocialLinks.UpsertNames` | packages/ui/src/containers/FillUserProfileContainer/FillUserProfileContainer.tsx:274-315 | after an edit the platform has an entry, and every name that was present is still present |
| `SocialLinks.UpsertKeepsOneEntryPerName` | packages/ui/src/containers/FillUserProfileContainer/FillUserProfileContainer.tsx:274-315 | if the links had at most one entry per name before an edit, they still do after it |
| `SocialLinks.UpsertLastWriteWins` | packages/ui/src/containers/FillUserProfileContainer/FillUserProfileContainer.tsx:274-315 | two edits of the same platform give the same links as only the second edit |
| `SocialLinks.UpsertThenNormalise` | packages/ui/src/containers/FillUserProfileContainer/FillUserProfileContainer.tsx:283-308 | normalising the edited links gives every entry of the edited platform exactly the typed handle as its url |
| `SocialLinks.OnSocialInput` | packages/ui/src/containers/FillUserProfileContainer/FillUserProfileContainer.tsx:317-320 | the edit handler replaces only `links`, with the upserted list |
| `ProfileSubmit.RoleField` | packages/ui/src/containers/FillUserProfileContainer/FillUserProfileContainer.tsx:151 | `memberRole` is the role's `_id` when that is a non-empty string, otherwise absent, never an explicit empty string |
| `ProfileSubmit.SubmissionFields` | packages/ui/src/containers/FillUserProfileContainer/FillUserProfileContainer.tsx:142-162 | the id, bio and hours are copied; links become name/url pairs, same length and order; `memberRole` is the role `_id` when that is truthy and absent otherwise (`RoleField`); `previusProjects` follows `background` in length and order, with `description` = bio and title and dates copied; onboarding has signup true and the given percentage |
| `ProfileSubmit.SubmitClick` | packages/ui/src/containers/FillUserProfileContainer/FillUserProfileContainer.tsx:371-383 | a Submit click produces a payload exactly at EXP with Submit enabled, and that payload is the assembled `fields` record |
| `ProfileSubmit.SubmitClickIff` | packages/ui/src/containers/FillUserProfileContainer/FillUserProfileContainer.tsx:375-379 | Submit goes through exactly at EXP with percentage at least 50 or some titled entry |
| `ProfileSubmit.LoadedLinksSubmittedAsHandles` | packages/ui/src/containers/FillUserProfileContainer/FillUserProfileContainer.tsx:147-150 | a link stored as prefix + handle is sent as the bare handle when the profile is loaded and submitted without an edit |
| `ProfileSubmit.EditedLinkSubmittedWithPrefix` | packages/ui/src/containers/FillUserProfileContainer/FillUserProfileContainer.tsx:147-150 | after an edit of a platform's field, the payload has that platform and sends every entry of it with the prefixed url |
| `Shortlist.KeepNonTeam` | packages/ui/src/containers/ShortlistContainer/ShortlistContainer.tsx:28-32 | a member is kept exactly when it is among the matches and its `_id` is `===` to no team member's `memberInfo?._id` (null and undefined distinct); each kept member occurs as many times as in the matches, each dropped one not at all |
| `Shortlist.FilteredMembers` | packages/ui/src/containers/ShortlistContainer/ShortlistContainer.tsx:27-33 | absent match data gives the empty list; otherwise membership and the number of copies of each member are as for the filter, which fixes `filteredMembers.length` |
| `Shortlist.KeepNonTeamIsSubsequence` | packages/ui/src/containers/ShortlistContainer/ShortlistContainer.tsx:27-33 | the kept members are a subsequence of the matches (relative order preserved) |
| `Shortlist.FilteredMembersIsSubsequence` | packages/ui/src/containers/ShortlistContainer/ShortlistContainer.tsx:27-40 | `filteredMembers` is an order-preserving selection of the matches, so the member count shown is at most the number of matches |
| `Shortlist.NoTeamKeepsAll` | packages/ui/src/containers/ShortlistContainer/ShortlistContainer.tsx:28-32 | with no project, no team or an empty team, every match is kept in order |
| `Shortlist.KeepNonTeamIdempotent` | packages/ui/src/containers/ShortlistContainer/ShortlistContainer.tsx:27-33 | filtering the filtered list changes nothing |
| `Shortlist.UndefinedIdsMatch` | packages/ui/src/containers/ShortlistContainer/ShortlistContainer.tsx:30-32 | a member whose `_id` is undefined is dropped when a team entry has no `memberInfo` |
| `Shortlist.NullIdNotMatchedByMissingInfo` | packages/ui/src/containers/ShortlistContainer/ShortlistContainer.tsx:30-32 | a member whose `_id` is null keeps all its copies against team entries that are null or lack `memberInfo`, since `undefined === null` is false |
| `Shortlist.NullIdsMatch` | packages/ui/src/containers/ShortlistContainer/ShortlistContainer.tsx:30-32 | a member whose `_id` is null is dropped by a team member whose `memberInfo._id` is null |
| `Shortlist.FlatMapSkillIds` | packages/ui/src/containers/ShortlistContainer/ShortlistContainer.tsx:19-21 | `flatMap` lists each skill's `skillData._id` (null and undefined included) in skill order, one per skill |
| `Shortlist.SkillsId` | packages/ui/src/containers/ShortlistContainer/ShortlistContainer.tsx:19-21 | `skillsID` is absent exactly when there is no selected role or no skill list; otherwise it is the skill ids in order |
| `CreateProjectView.InitialState` | packages/ui/src/containers/CreateProject/CreateProjectViews7/CreateProjectViews7.tsx:25-29 | the initial state has exactly the fields username, selectedRole and description, all "" |
| `CreateProjectView.Reducer` | packages/ui/src/containers/CreateProject/CreateProjectViews7/CreateProjectViews7.tsx:31-41 | "HANDLE PROJECT VIEW 2 TEXT" sets `action.field` to the payload value, adding the key if new, and keeps every other field; any other type returns the state unchanged |
| `CreateProjectView.ReducerIdempotent` | packages/ui/src/containers/CreateProject/CreateProjectViews7/CreateProjectViews7.tsx:33-37 | dispatching an action twice equals dispatching it once |
| `CreateProjectView.ReducerCommutes` | packages/ui/src/containers/CreateProject/CreateProjectViews7/CreateProjectViews7.tsx:33-37 | actions on different fields can be dispatched in either order |
| `CreateProjectView.CommentedDispatchIgnored` | packages/ui/src/containers/CreateProject/CreateProjectViews7/CreateProjectViews7.tsx:62-68 | an action of the commented-out dispatch type "HANDLE INPUT TEXT" leaves the state unchanged |
| `CreateProjectView.OnNextReceivesInitialState` | packages/ui/src/containers/CreateProject/CreateProjectViews7/CreateProjectViews7.tsx:59-69 | `handleUpdateState` never dispatches, so after any edits the state passed to `onNext` is the initial state |
| `CreateProjectView.BatteryAfter` | packages/ui/src/containers/CreateProject/CreateProjectViews7/CreateProjectViews7.tsx:116-161 | each increment adds exactly 10 when the battery is below its threshold (20 for the name, 99 for a role, 70 for the one-liner) and otherwise leaves it unchanged |
| `CreateProjectView.BatteryRisesByTens` | packages/ui/src/containers/CreateProject/CreateProjectViews7/CreateProjectViews7.tsx:116-161 | over any series of inputs the battery never decreases, and it rises by a multiple of 10, at most 10 per input |
| `CreateProjectView.BatteryCapped` | packages/ui/src/containers/CreateProject/CreateProjectViews7/CreateProjectViews7.tsx:116-161 | a battery at or below a cap that is at least each input's threshold plus 9 stays at or below that cap |
| `CreateProjectView.BatteryAtMost108` | packages/ui/src/containers/CreateProject/CreateProjectViews7/CreateProjectViews7.tsx:138-146 | starting at most 108, the battery stays at most 108, and a role selection at 98 brings it to 108 |

## Left out

- Rendering: JSX, hook lifecycles, when `useEffect` runs, and the `submitting` and loading displays. The placeholder strings are also left out. All of these are UI concerns.
- The Apollo calls: the member-update mutation and its `onCompleted`/`onError` callbacks, the role-template query, the matching query and its `skip`. The payload is modelled as the value handed to the mutation.
- The user and launch-project contexts: the current user's id, whether the current user's `links` field is set (an empty array counts as set), the project and the selected role are explicit parameters.
- The `STEPS` enum is not part of this model. Exactly the four values used here are assumed; any other value of the `step` prop is `None`. The COMPENSATION step is commented out in the source.
- What the SOCIALS input displays: it shows the stored url as it is. The model claims no round trip through the input component.
- The shortlist grid: it renders the unfiltered match list. That is rendering, not the filter.
- Floating point: percentage, battery and numeric field values are integers. A number the view reads with unary `+` is modelled as an integer, and `NaN` is not modelled.
- The `percentage = 0` default for an absent prop: the model takes the percentage as an integer that has already been resolved.
- A missing `background` is not represented: `ProfileState.FormState.background` is always a list. In the source a missing list would throw at the EXP step only when the percentage is below 50, because the `.some` reads at FillUserProfileContainer.tsx:343 and :377 come after `percentage < 50 &&`. With a percentage of at least 50, Submit stays enabled and the payload carries `previusProjects: undefined` (:152). These cases are out of the model; it always sends a list.
- A null entry in `links` is not represented. In the source it would throw in the load normaliser (`link.name`, :113) and in the in-place edit branch (`link.name`, :283). It would pass through unchanged in the append branch (:275 uses `link?.name`, and :310 only pushes) and into the payload as `{url: undefined, name: undefined}` (:148-149). None of these cases is in the model.
- A null entry in `background` is not represented. At the EXP step with a percentage below 50, `!!bg.title` at :343 and :377 would throw first, during rendering; otherwise `item.bio` at :153 would throw on submit. The model's background entries are always present.
- Link names are taken to be present strings (`ProfileState.Link.name`). An undefined or null `name` is a value the source handles: it never equals a platform name at :270 and :276, and it is sent as it is (undefined or null) at :149. The model does not represent it.
- Null entries in the match list. The filter's `member?._id` of a null member is not modelled; a matched member is taken to be present.
- The battery handlers read the `battery` prop captured at render time. The model assumes the view re-renders with the new level between two inputs.
- `console.log` calls, which have no effect on state.
- The TabsCard story, which has no logic.
