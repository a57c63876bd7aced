/**
 * `handleSubmitForm` of FillUserProfileContainer: the `fields` record sent to
 * the member-update mutation, assembled from the form state. The mutation
 * itself is not part of this model; only the value handed to it is.
 */
module ProfileSubmit {
  import opened Wrappers
  import opened JsText
  import opened ProfileState
  import opened ProfileSteps
  import opened SocialLinks

  datatype LinkInput = LinkInput(url: Option<string>, name: string)

  datatype ProjectInput = ProjectInput(
    description: Option<string>,
    endDate: Option<string>,
    startDate: Option<string>,
    title: Option<string>)

  datatype OnboardingInput = OnboardingInput(signup: bool, percentage: int)

  datatype MemberFields = MemberFields(
    id: Option<string>,
    bio: Option<string>,
    hoursPerWeek: Option<int>,
    links: Option<seq<LinkInput>>,
    memberRole: Option<string>,
    previusProjects: seq<ProjectInput>,
    onbording: OnboardingInput)

  /** `state?.memberRole?._id || undefined`: the role id when it is a non-empty string, otherwise absent. */
  function RoleField(role: Option<RoleTemplate>): (r: Option<string>)
    ensures r.Some? <==> role.Some? && IsTruthy(role.value.id)
    ensures r.Some? ==> r == role.value.id && r.value != ""
  {
    match role
    case Some(t) => if IsTruthy(t.id) then t.id else None
    case None => None
  }

  function ToLinkInput(link: Link): LinkInput {
    LinkInput(link.url, link.name)
  }

  function ToProjectInput(e: Experience): ProjectInput {
    ProjectInput(e.bio, e.endDate, e.startDate, e.title)
  }

  /** The `fields` record for the current user, the form state and the completion percentage. */
  function SubmissionFields(currentUserId: Option<string>, state: FormState, percentage: int): (r: MemberFields)
    ensures r.id == currentUserId && r.bio == state.bio && r.hoursPerWeek == state.hoursPerWeek
    ensures r.links.Some? <==> state.links.Some?
    ensures state.links.Some? ==> |r.links.value| == |state.links.value|
    ensures state.links.Some? ==> forall i :: 0 <= i < |state.links.value| ==>
      r.links.value[i].name == state.links.value[i].name && r.links.value[i].url == state.links.value[i].url
    ensures r.memberRole == RoleField(state.memberRole)
    ensures r.memberRole.Some? <==> state.memberRole.Some? && IsTruthy(state.memberRole.value.id)
    ensures r.memberRole.Some? ==> r.memberRole == state.memberRole.value.id && r.memberRole != Some("")
    ensures |r.previusProjects| == |state.background|
    ensures forall i :: 0 <= i < |state.background| ==>
      r.previusProjects[i].description == state.background[i].bio &&
      r.previusProjects[i].title == state.background[i].title &&
      r.previusProjects[i].startDate == state.background[i].startDate &&
      r.previusProjects[i].endDate == state.background[i].endDate
    ensures r.onbording.signup && r.onbording.percentage == percentage
  {
    MemberFields(
      currentUserId,
      state.bio,
      state.hoursPerWeek,
      match state.links
        case Some(ls) => Some(seq(|ls|, i requires 0 <= i < |ls| => ToLinkInput(ls[i])))
        case None => None,
      RoleField(state.memberRole),
      seq(|state.background|, i requires 0 <= i < |state.background| => ToProjectInput(state.background[i])),
      OnboardingInput(true, percentage))
  }

  /**
   * A click on Submit: it reaches `handleSubmitForm` only when the step shows the button and the button is enabled.
   * The button bar's own gate, a loaded current user and no submission in progress, is not modelled.
   */
  function SubmitClick(step: Option<Step>, currentUserId: Option<string>, state: FormState, percentage: int): (r: Option<MemberFields>)
    ensures r.Some? <==> step == Some(Exp) && !SubmitDisabled(percentage, state.background)
    ensures r.Some? ==> r.value == SubmissionFields(currentUserId, state, percentage)
  {
    if SubmitOffered(step) && !SubmitDisabled(percentage, state.background)
    then Some(SubmissionFields(currentUserId, state, percentage))
    else None
  }

  /** Submit goes through at EXP exactly when the percentage is at least 50 or some entry has a title. */
  lemma SubmitClickIff(step: Option<Step>, currentUserId: Option<string>, state: FormState, percentage: int)
    ensures SubmitClick(step, currentUserId, state, percentage).Some? <==>
      step == Some(Exp) &&
      (percentage >= 50 || exists i :: 0 <= i < |state.background| && HasTitle(state.background[i]))
  {
  }

  /**
   * A profile loaded and submitted with no edit of the socials sends the
   * edit form: a link stored as a known platform's prefix followed by a
   * handle goes out as the bare handle.
   */
  lemma LoadedLinksSubmittedAsHandles(currentUserId: Option<string>, state: FormState, percentage: int,
                                      i: nat, p: Platform, handle: string)
    requires state.links.Some? && i < |state.links.value|
    requires state.links.value[i].name == p.Name() && state.links.value[i].url == Some(p.Prefix() + handle)
    ensures SubmissionFields(currentUserId, OnProfileLoaded(state, true), percentage).links.value[i].url == Some(handle)
  {
    var link := state.links.value[i];
    assert PlatformNamed(p.Name()) == Some(p);
    ReplaceLeadingOccurrence(p.Prefix(), handle);
    assert NormalisedLinks(state.links.value)[i] == StripLink(link);
  }

  /** After typing a handle for a platform, every entry of that platform is sent with the prefixed url. */
  lemma EditedLinkSubmittedWithPrefix(currentUserId: Option<string>, state: FormState, percentage: int,
                                      item: string, value: string)
    ensures var r := SubmissionFields(currentUserId, OnSocialInput(state, item, value), percentage);
      r.links.Some? && HasEntry(Upserted(state.links, item, value), item) &&
      forall i :: 0 <= i < |r.links.value| && r.links.value[i].name == item ==>
        r.links.value[i].url == Some(StorageUrl(item, value))
  {
    UpsertNames(state.links, item, value);
    var ls := Upserted(state.links, item, value);
    forall i | 0 <= i < |ls| && ls[i].name == item
      ensures ls[i].url == Some(StorageUrl(item, value))
    {
      if state.links.Some? && HasEntry(state.links.value, item) {
        assert ls[i] == EditedEntry(state.links.value[i], item, value);
      } else {
        var base := if state.links.Some? then state.links.value else [];
        assert ls == base + [NewEntry(item, value)];
        assert i == |base|;
      }
    }
  }
}
