/**
 * The form state of the profile-onboarding wizard (FillUserProfileContainer)
 * and the three handlers that replace one field of it with a spread copy.
 */
module ProfileState {
  import opened Wrappers

  /** A role template from the role catalogue: only its `_id` and `title` are read. */
  datatype RoleTemplate = RoleTemplate(id: Option<string>, title: Option<string>)

  /** A social link as stored on the member: platform name, url and GraphQL `__typename`. */
  datatype Link = Link(typename: Option<string>, name: string, url: Option<string>)

  /** One background (previous project) entry as the experience card edits it. */
  datatype Experience = Experience(
    title: Option<string>,
    bio: Option<string>,
    startDate: Option<string>,
    endDate: Option<string>)

  /** The wizard's form state. */
  datatype FormState = FormState(
    memberRole: Option<RoleTemplate>,
    bio: Option<string>,
    hoursPerWeek: Option<int>,
    links: Option<seq<Link>>,
    background: seq<Experience>)

  /** `handleSetRole`: the selected role replaces `memberRole`; every other field is kept. */
  function SetRole(state: FormState, value: RoleTemplate): (r: FormState)
    ensures r.memberRole == Some(value)
    ensures r.bio == state.bio && r.hoursPerWeek == state.hoursPerWeek
    ensures r.links == state.links && r.background == state.background
  {
    state.(memberRole := Some(value))
  }

  /** `handleSetBio`: the typed text replaces `bio`; every other field is kept. */
  function SetBio(state: FormState, value: string): (r: FormState)
    ensures r.bio == Some(value)
    ensures r.memberRole == state.memberRole && r.hoursPerWeek == state.hoursPerWeek
    ensures r.links == state.links && r.background == state.background
  {
    state.(bio := Some(value))
  }

  /** `handleSetBackground`: the edited list replaces `background`; every other field is kept. */
  function SetBackground(state: FormState, value: seq<Experience>): (r: FormState)
    ensures r.background == value
    ensures r.memberRole == state.memberRole && r.bio == state.bio
    ensures r.hoursPerWeek == state.hoursPerWeek && r.links == state.links
  {
    state.(background := value)
  }

  /** The three setters touch different fields, so the order of two edits does not matter. */
  lemma SettersCommute(state: FormState, role: RoleTemplate, bio: string, background: seq<Experience>)
    ensures SetBio(SetRole(state, role), bio) == SetRole(SetBio(state, bio), role)
    ensures SetBackground(SetRole(state, role), background) == SetRole(SetBackground(state, background), role)
    ensures SetBackground(SetBio(state, bio), background) == SetBio(SetBackground(state, background), bio)
  {
  }

  /** A later edit of the same field overwrites an earlier one. */
  lemma SettersLastWriteWins(state: FormState, r1: RoleTemplate, r2: RoleTemplate, b1: string, b2: string,
                             g1: seq<Experience>, g2: seq<Experience>)
    ensures SetRole(SetRole(state, r1), r2) == SetRole(state, r2)
    ensures SetBio(SetBio(state, b1), b2) == SetBio(state, b2)
    ensures SetBackground(SetBackground(state, g1), g2) == SetBackground(state, g2)
  {
  }
}
