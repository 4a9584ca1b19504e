/** Onboarding after sign-up: the role choice, the role's form, and
    `handleSubmit`, which stores the role's profile and sends the user on to
    the landing page. */
module StatusSelection {

  import opened Common
  import Home
  import Login

  datatype OnboardingForm = OnboardingForm(bio: string, experience: string, organization: string, title: string)

  const EmptyForm: OnboardingForm := OnboardingForm("", "", "", "")

  /** The `name` attributes of the role form's inputs. */
  datatype OnboardingField = Bio | Experience | Organization | Title

  function Get(form: OnboardingForm, field: OnboardingField): string {
    match field
    case Bio => form.bio
    case Experience => form.experience
    case Organization => form.organization
    case Title => form.title
  }

  /** `handleChange`: `{ ...prev, [name]: value }`. */
  function SetField(form: OnboardingForm, name: OnboardingField, value: string): (r: OnboardingForm)
    ensures Get(r, name) == value
    ensures forall f :: f != name ==> Get(r, f) == Get(form, f)
  {
    match name
    case Bio => form.(bio := value)
    case Experience => form.(experience := value)
    case Organization => form.(organization := value)
    case Title => form.(title := value)
  }

  /** A row of `organizations` as the select lists it. */
  datatype Organization = Organization(id: Id, name: string)

  /** The row inserted into `talents`. */
  datatype TalentRecord = TalentRecord(userId: Id, bio: string, experience: string)

  /** The row inserted into `hiring_managers`. */
  datatype ManagerRecord = ManagerRecord(userId: Id, orgId: string, title: string)

  function TalentRecordOf(user: AuthUser, form: OnboardingForm): (r: TalentRecord)
    ensures r.userId == user.id && r.bio == form.bio && r.experience == form.experience
  {
    TalentRecord(user.id, form.bio, form.experience)
  }

  /** The chosen organization's id is stored as `org_id`. */
  function ManagerRecordOf(user: AuthUser, form: OnboardingForm): (r: ManagerRecord)
    ensures r.userId == user.id && r.orgId == form.organization && r.title == form.title
  {
    ManagerRecord(user.id, form.organization, form.title)
  }

  /** The fields of the other role never reach the stored record. */
  lemma RecordsIgnoreOtherRole(user: AuthUser, form: OnboardingForm, other: OnboardingForm)
    ensures other.bio == form.bio && other.experience == form.experience
      ==> TalentRecordOf(user, other) == TalentRecordOf(user, form)
    ensures other.organization == form.organization && other.title == form.title
      ==> ManagerRecordOf(user, other) == ManagerRecordOf(user, form)
  {
  }

  /** The navigation to `/home` carrying the user's name and the chosen role. */
  function Landing(user: AuthUser, userStatus: string): (nav: Navigation)
    ensures nav.path == "/home" && !nav.replace
    ensures nav.userName == user.fullName && nav.userStatus == Some(userStatus)
  {
    Navigation("/home", false, user.fullName, Some(userStatus))
  }

  /** Onboarding and a later sign-in agree: a named user who has just stored a
      talent or hiring-manager profile is forwarded by the landing page to the
      page a sign-in with that one profile leads to. */
  lemma LandingAgreesWithSignIn(user: AuthUser, userStatus: string)
    requires Home.Truthy(user.fullName)
    requires userStatus == "talent" || userStatus == "hiring_manager"
    ensures var nav := Landing(user, userStatus);
      var landing := Home.HomeDecision(nav.userName, nav.userStatus);
      var talentRows := if userStatus == "talent" then Some(1) else Some(0);
      var managerRows := if userStatus == "hiring_manager" then Some(1) else Some(0);
      landing.Forward?
      && landing.navigation.path == Login.RouteAfterSignIn(user.fullName, talentRows, managerRows).path
      && landing.navigation.userStatus == Login.RouteAfterSignIn(user.fullName, talentRows, managerRows).userStatus
  {
  }

  const LoadOrganizationsError: string := "Failed to load organizations. Please try again later."
  const NoUserError: string := "No user found"

  /** The page's state, with the two profile tables it inserts into. */
  class StatusSelectionPage {
    var userStatus: string
    var organizations: seq<Organization>
    var isLoadingOrgs: bool
    var formData: OnboardingForm
    var isLoading: bool
    var error: string
    var navigation: Option<Navigation>
    var talents: seq<TalentRecord>
    var managers: seq<ManagerRecord>

    /** `disabled={!userStatus || isLoading}`, negated: the submit button is
        usable once a role is chosen and no submission is under way. */
    predicate SubmitEnabled()
      reads this
    {
      userStatus != "" && !isLoading
    }

    constructor (talentRows: seq<TalentRecord>, managerRows: seq<ManagerRecord>)
      ensures userStatus == "" && organizations == [] && isLoadingOrgs && formData == EmptyForm
      ensures !isLoading && error == "" && navigation == None
      ensures !SubmitEnabled()
      ensures talents == talentRows && managers == managerRows
    {
      userStatus, organizations, isLoadingOrgs, formData := "", [], true, EmptyForm;
      isLoading, error, navigation := false, "", None;
      talents, managers := talentRows, managerRows;
    }

    /** `fetchOrganizations`: rows fill the select, no data empties it, a
        failed query shows the load error. */
    method FetchOrganizations(result: QueryResult<Organization>)
      modifies this
      ensures !isLoadingOrgs
      ensures result.Rows? ==> organizations == result.rows && error == old(error)
      ensures result.NoData? ==> organizations == [] && error == old(error)
      ensures result.QueryError? ==> organizations == old(organizations) && error == LoadOrganizationsError
      ensures userStatus == old(userStatus) && formData == old(formData) && isLoading == old(isLoading)
      ensures navigation == old(navigation) && talents == old(talents) && managers == old(managers)
    {
      isLoadingOrgs := true;
      match result {
        case Rows(rows) => organizations := rows;
        case NoData => organizations := [];
        case QueryError(_) => error := LoadOrganizationsError;
      }
      isLoadingOrgs := false;
    }

    /** `handleChange`: one field of the role form takes the value. */
    method HandleChange(name: OnboardingField, value: string)
      modifies this
      ensures formData == SetField(old(formData), name, value)
      ensures userStatus == old(userStatus) && isLoading == old(isLoading) && error == old(error)
      ensures navigation == old(navigation) && talents == old(talents) && managers == old(managers)
      ensures organizations == old(organizations) && isLoadingOrgs == old(isLoadingOrgs)
    {
      formData := SetField(formData, name, value);
    }

    /** `handleStatusChange`: choosing a role, even the same one again, clears the form. */
    method HandleStatusChange(status: string)
      modifies this
      ensures userStatus == status
      ensures forall f :: Get(formData, f) == ""
      ensures SubmitEnabled() <==> status != "" && !old(isLoading)
      ensures isLoading == old(isLoading) && error == old(error)
      ensures navigation == old(navigation) && talents == old(talents) && managers == old(managers)
      ensures organizations == old(organizations) && isLoadingOrgs == old(isLoadingOrgs)
    {
      userStatus := status;
      formData := EmptyForm;
    }

    /** `handleSubmit`, given the signed-in user (if any) and the outcome of the
        insert. Without a user nothing is stored; the role's record is stored
        only for 'talent' or 'hiring_manager'; the page moves on only when no
        step failed; loading ends switched off. */
    method HandleSubmit(user: Option<AuthUser>, insertError: Option<string>)
      modifies this
      ensures !isLoading
      ensures SubmitEnabled() <==> userStatus != ""
      ensures formData == old(formData) && userStatus == old(userStatus)
      ensures organizations == old(organizations) && isLoadingOrgs == old(isLoadingOrgs)
      ensures user.None? ==>
        error == NoUserError && navigation == old(navigation)
        && talents == old(talents) && managers == old(managers)
      ensures user.Some? && userStatus == "talent" ==>
        managers == old(managers)
        && (insertError.None? ==> talents == old(talents) + [TalentRecordOf(user.value, formData)])
        && (insertError.Some? ==> talents == old(talents))
      ensures user.Some? && userStatus == "hiring_manager" ==>
        talents == old(talents)
        && (insertError.None? ==> managers == old(managers) + [ManagerRecordOf(user.value, formData)])
        && (insertError.Some? ==> managers == old(managers))
      ensures user.Some? && userStatus != "talent" && userStatus != "hiring_manager" ==>
        talents == old(talents) && managers == old(managers)
      ensures user.Some? && (insertError.None? || (userStatus != "talent" && userStatus != "hiring_manager")) ==>
        navigation == Some(Landing(user.value, userStatus)) && error == ""
      ensures user.Some? && insertError.Some? && (userStatus == "talent" || userStatus == "hiring_manager") ==>
        navigation == old(navigation) && error == insertError.value
    {
      isLoading := true;
      error := "";
      if user.None? {
        error := NoUserError;
        isLoading := false;
        return;
      }
      var u := user.value;
      var form := formData;
      if userStatus == "talent" {
        if insertError.Some? {
          error := insertError.value;
          isLoading := false;
          return;
        }
        talents := talents + [TalentRecordOf(u, form)];
      } else if userStatus == "hiring_manager" {
        if insertError.Some? {
          error := insertError.value;
          isLoading := false;
          return;
        }
        managers := managers + [ManagerRecordOf(u, form)];
      }
      navigation := Some(Landing(u, userStatus));
      isLoading := false;
    }
  }
}
